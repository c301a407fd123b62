# EnvGraph host bookkeeping in Dafny

This project models the host-side bookkeeping of the EnvGraph Vulkan engine and proves properties of it. Device calls are not modelled as such. Memory types become flag sets, queue families become records, and the effects of a call are recorded as entries of a call trace. The model covers:

- **Queue budget and pipeline registry** (`queue_budget.dfy`, `host.dfy`, `vk_subsystem.dfy`).
  - Each pipeline gets the start indices `max − available` and is charged its declared queue requirement in `uint32_t` arithmetic.
  - A pipeline registers either immediately (`NewPipeline`) or in the deferred pass (`CreateComponentPipelines`), which a pending counter gates.
  - Pipelines never mark themselves as set up.
- **The engine's frame loop, resize and teardown** (`host.dfy`). Each is a trace of calls, in order.
- **Subsystem bring-up and the render-resolution gate** (`vk_subsystem.dfy`).
- **The resource binder of `EnginePipeline`** (`pipelines.dfy`, `memory_types.dfy`):
  - descriptor-set ids and pool-size counting;
  - the `[set][binding]` descriptor table, kept as an `array2`;
  - the write batch of `SetupPipeline`;
  - first-fit memory-type choice.
- **Swapchain parameter choice, queue-family choice, and extension and layer lists** (`swapchain.dfy`, `queue_families.dfy`).
- **The event publisher** (`events.dfy`): its ring buffer and one dispatch step.
- **The UI pipeline's vertex bookkeeping** (`ui.dfy`, `prims.dfy`): labels and buttons in `std::map`s, six vertices per quad in flat vertex buffers.
- **The radio pipeline** (`radio.dfy`): the FFT-shift permutation, the averaging rows, the line-vertex fill, and the time-row ring with its pause gate.
- **The Kinect mesh pipeline's validity and scan-buffer size** (`kinect_mesh.dfy`).
- **The log** (`log.dfy`):
  - the printf-like formatter with its argument-count checks;
  - the first-in, first-out log store;
  - the `InitLog`/`DeInitLog` guards.
- **`checked_cast`** (`checked_cast.dfy`).

Operations that change state are methods of classes whose fields mirror the source's members. A method states its new state in its `ensures`, and loops carry their invariants. Pure computations are functions, and lemmas relate them to one another. Where the source has a defect, the model keeps the code as written and puts a corrected member beside it; see "Findings".

## Model

| member | source | states |
|---|---|---|
| Common.Sub32 | engine.cpp:104-107 | `uint32_t` subtraction: the exact difference when it does not go below zero, otherwise the difference plus 2^32 |
| Common.Add32 | engine.h:57-59 | `uint32_t` addition: the exact sum below 2^32, otherwise the sum minus 2^32 |
| CheckedCast.MaxOf | vk_utils.h:22 | the largest value of each unsigned type has every bit of its `sizeof` bytes set: one less than 256 to the power of its size |
| CheckedCast.MaxOfMonotone | vk_utils.h:16-17 | a type no wider than another has no larger maximum |
| CheckedCast.StaticCast | vk_utils.h:23 | the cast result always fits the target, and equals the input exactly when the input fits |
| CheckedCast.CheckedCast | vk_utils.h:14-24 | under the two compile-time demands: in a debug build the cast succeeds exactly when the value is at most the target's maximum, and then returns the value unchanged; in a release build the `assert` is gone and the result is always the truncating `static_cast` |
| CheckedCast.CheckedCastRoundTrip | vk_utils.h:22-23 | widening a successful debug-build result back to the source type gives the original value; casting to the same type returns the value unchanged in either build |
| CheckedCast.ReleaseCastTruncates | vk_utils.h:22-23 | a release build returns what a debug build returns wherever the debug `assert` holds, and truncates where it would fail (256 from `uint16_t` to `uint8_t` gives 0) |
| MemoryTypes.ShiftRightStep | vk_utils.cpp:183 | one more right shift of `typeBits >> i` is `typeBits >> (i + 1)`, so after `i` loop rounds bit 0 of the shifted mask is bit `i` of the original |
| MemoryTypes.FirstSuitableFrom | vk_utils.cpp:175-184 | the result from `from` on is suitable and nothing between `from` and it is; no result means nothing from `from` on is suitable |
| MemoryTypes.FindMemoryType | src/vk/subsystem.cc:780-791 | a type is found exactly when some memory type is suitable; the one found is suitable and no lower index is |
| MemoryTypes.GetMemoryType | vk_utils.cpp:172-187 | when some memory type is suitable the loop returns the lowest suitable index; when none is it returns 0 |
| MemoryTypes.MemoryTypeIndex | pipelines.h:217-234 | the returned index is the first-fit index when there is one, and 0 otherwise |
| MemoryTypes.NoMatchAliasesTypeZero | src/vk/subsystem.cc:792-793 | a mask that no memory type serves gets index 0, the same index as a mask that memory type 0 does serve |
| QueueBudget.Starts | engine.cpp:100-102 | in a consistent budget, the start index of each family plus its available count is its maximum |
| QueueBudget.Charge | engine.cpp:104-107 | the maximums are unchanged, and a fitting requirement lowers each available count by exactly the requirement |
| QueueBudget.ChargeAdvancesStarts | src/vk/subsystem.cc:228-233 | a fitting charge keeps the budget consistent and moves each start index on by exactly the requirement, staying within the maximum |
| QueueBudget.ChargeUnderflows | engine.cpp:104-105 | charging one graphics queue when none is left wraps the available count to 2^32 − 1, and the next start index (5) lies beyond the 4 queues |
| QueueBudget.Claim | engine.cpp:100-107 | a claim is granted exactly when the requirement fits; the grant carries the current start indices and the lowered counts, and keeps the budget consistent |
| QueueBudget.ChargeAllContiguous | engine.cpp:114-128 | charging a list of requirements that fits in total keeps the budget consistent, lowers the counts by the totals, and moves the start indices on by the totals, so the pipelines get back-to-back queue ranges |
| QueueFamilies.ComputeTestAcceptsAnyComputeFamily | vk_utils.cpp:341-343 | the XOR test passes exactly when the family supports compute, and it accepts a combined graphics and compute family, which is not a dedicated one |
| QueueFamilies.DedicatedComputeExcludesGraphics | src/vk/subsystem.cc:560-566 | a dedicated compute family has no graphics, and it passes the XOR test too |
| QueueFamilies.LastMatch | vk_utils.cpp:335-350 | a chosen family exists and passes the test |
| QueueFamilies.LastMatchIsLast | vk_utils.cpp:335-350 | no family after the chosen one passes the test; when none is chosen, no family passes |
| QueueFamilies.LastMatchStep | src/vk/subsystem.cc:553-572 | scanning one more family picks it if it passes, and otherwise keeps the earlier choice |
| QueueFamilies.ScanFamilies | src/vk/subsystem.cc:547-578 | one pass over the families leaves the graphics, compute and present choices equal to the last family that passes each test |
| Swapchain.Clamp | vk_utils.cpp:255-260 | `max(lo, min(hi, v))` is never below `lo`, is one of `lo`, `hi`, `v`, keeps a value inside a non-empty range, and sends values below or above the range to its ends |
| Swapchain.ClampIdempotent | src/vk/subsystem.cc:640-641 | clamping an already clamped value into the same non-empty range changes nothing |
| Swapchain.ClampMonotone | src/vk/subsystem.cc:640-641 | clamping preserves the order of the clamped values |
| Swapchain.SwapExtent | src/vk/subsystem.cc:631-644 | the surface's current extent when its width is not `UINT32_MAX`, otherwise the wanted extent clamped per dimension into `[minImageExtent, maxImageExtent]` |
| Swapchain.SwapExtentWithinLimits | src/vk/subsystem.cc:640-641 | when the surface leaves the extent open, the chosen extent lies within the surface's range, and a wanted extent already inside the range is kept as it is |
| Swapchain.SwapExtentIdempotent | vk_utils.cpp:250-263 | choosing an extent again from a chosen extent gives the same extent |
| Swapchain.ChooseSwapExtent | vk_utils.cpp:248-264 | the current extent when the surface fixes it; otherwise 1440×1600 whenever the surface's range admits it |
| Swapchain.ChooseSwapChainExtent | src/vk/subsystem.cc:627-645 | the current extent when the surface fixes it; otherwise each dimension is the view extent clamped into `[minImageExtent, maxImageExtent]`, so never below the minimum and, for a non-empty range, never above the maximum |
| Swapchain.ImageCount | vk_utils.cpp:271-275 | one more than the minimum, never above a maximum that is set (`maxImageCount > 0`); without a maximum it is the `uint32_t` sum; a maximum not above the minimum wins |
| Swapchain.ImageCountWrapsWithoutMaximum | src/vk/subsystem.cc:655-658 | with no maximum and a minimum of `UINT32_MAX`, the count wraps to 0 images |
| Swapchain.Sharing | vk_utils.cpp:289-298 | sharing is concurrent exactly when the graphics and present families differ, and then lists those two families in that order |
| Swapchain.ChooseSwapSurfaceFormat | vk_utils.cpp:238-246 | as written (both copies, also src/vk/subsystem.cc:615-625): whatever the preference loop finds, the chosen format is the first format offered |
| Swapchain.PreferredSurfaceFormat | vk_utils.cpp:239-243 | the choice the preference loop computes before it is overwritten: one of the offered formats; B8G8R8A8 UNORM with sRGB non-linear exactly when that format is offered, and otherwise the first format offered |
| Swapchain.PreferredFormatOverwritten | src/vk/subsystem.cc:624 | a surface offering the preferred format second: the preference loop picks it, but the overwrite returns the first format |
| Swapchain.CheckDeviceExtensionSupport | src/vk/subsystem.cc:311-321 | the device is reported as supporting the extensions exactly when every required name is among the available ones |
| Swapchain.AddIfAbsent | vk_utils.cpp:50-53 | the text comparison of `createInstance` (what `checked_vector_add` is meant to do): the result contains `s`, starts with the old list, is at most one longer, holds exactly the old names plus `s`, and gains no duplicate |
| Swapchain.AddIfAbsentIdempotent | vk_utils.cpp:50-53 | adding a name a second time changes nothing |
| Swapchain.AddIfAbsentPtr | src/vk/subsystem.cc:401-408 | as written: `std::find` compares addresses, so the list is unchanged exactly when it holds the very pointer `s`, and otherwise `s` is appended and its text shows last |
| Swapchain.AddIfAbsentPtrByText | src/vk/subsystem.cc:403-404 | when the text of `s` is held in the list only at the address of `s`, comparing addresses gives the same names as comparing texts |
| Swapchain.CheckedVectorAdd | src/vk/subsystem.cc:401-408 | as written: the search loop over `char const *` stops at the first element at the address of `s`, and returns the list unchanged when it finds one and with `s` appended otherwise (`AddIfAbsentPtr`) |
| Swapchain.InstanceLayers | vk_utils.cpp:43-54 | the caller's layers come first and unchanged; a debug build adds the validation layer only if it is missing; a release build adds nothing; no duplicate is created |
| Swapchain.InstanceExtensions | vk_utils.cpp:56-70 | the caller's extensions, then the surface extension, then the platform's; a debug build makes sure the debug-utils extension is present, adding nothing when the caller listed it |
| Swapchain.SubsystemLayers | src/vk/subsystem.cc:419-428 | a release build enables exactly the caller's layers; a debug build enables them followed by the validation layer, appended even when the caller listed it |
| Swapchain.CallerValidationLayerEnabledTwice | src/vk/subsystem.cc:421-427 | a debug build whose caller lists the validation layer enables it twice, where `createInstance` (vk_utils.cpp:43-54) enables it once |
| Swapchain.SubsystemLayersByText | src/vk/subsystem.cc:419-428 | comparing texts, as intended, over the caller's layers gives `InstanceLayers` and creates no duplicate |
| Swapchain.BaseExtensionTexts | src/vk/subsystem.cc:430-450 | before the debug check the extension names are the caller's, then the surface extension, then the platform's, in that order |
| Swapchain.BaseExtensionHoldsDebugUtils | src/vk/subsystem.cc:452 | the debug-utils literal is found before the check exactly when one of the engine's own literals is that name; a caller's copy never matches |
| Swapchain.SubsystemExtensions | src/vk/subsystem.cc:430-453 | the caller's extensions, the surface extension and the platform's; a debug build appends the debug-utils extension unless one of the engine's literals already is it, whether or not the caller listed it |
| Swapchain.CallerDebugUtilsEnabledTwice | src/vk/subsystem.cc:436-452 | a debug build whose caller lists the debug-utils extension enables it twice, where `createInstance` (vk_utils.cpp:56-70) enables it once |
| Events.MakeEvent | include/events.h:70-90 | an event exists exactly for at most 32 messages, and carries its type and messages |
| Events.IsMultipart | include/events.h:82 | an event is multipart exactly when it carries two or more messages |
| Events.Deliveries | include/events.h:129-139 | one dispatch makes at most one call per subscriber, and every call gets the dispatched message |
| Events.DeliveriesExactly | include/events.h:131-135 | a callback is called with the message exactly when some ready subscriber with that callback has filter 0 or a filter sharing a bit with the subtype |
| Events.ReadyOnly | include/events.h:140-143 | removing ended subscribers never lengthens the list |
| Events.ReadyOnlySnoc | include/events.h:142 | removing ended subscribers from a list with one more subscriber keeps that subscriber exactly when it is ready |
| Events.ReadyOnlyMembers | include/events.h:140-143 | exactly the ready subscribers survive the removal |
| Events.ReadyOnlyAppend | include/events.h:141-143 | the removal keeps relative order: it distributes over concatenation |
| Events.ReadyOnlyKeepsAllReady | include/events.h:140 | when every subscriber is ready the list is unchanged |
| Events.Next | include/events.h:172-173 | the index after `i` wraps to 0 at `buffer_length` |
| Events.RingCount | include/events.h:172-176 | fewer than `buffer_length` messages are ever pending |
| Events.RingSlot | include/events.h:125-127 | every pending position names a slot of the array |
| Events.RingContents | include/events.h:123-127 | the pending messages number exactly the distance from start to end |
| Events.KeepLast | include/events.h:174-176 | the newest `n` messages, or all of them when there are fewer, in their order |
| Events.PushRing | include/events.h:168-180 | storing a message leaves pending the newest `buffer_length − 1` of the old messages followed by the new one |
| Events.PushRingFull | include/events.h:174-176 | in a full ring, storing a message drops the oldest pending one and appends the new one |
| Events.PushRingRoom | include/events.h:172-179 | in a ring with room, storing a message keeps every pending message and appends the new one |
| Events.PopRing | include/events.h:123-127 | with start ≠ end a message is pending; the slot after start holds the oldest, and advancing start removes exactly that one |
| Events.NotifySubscribers | include/events.h:128-139 | the subscriber loop makes exactly the calls `Deliveries` names, and asks for a cleanup exactly when some subscriber has ended |
| Events.Publisher.Pending | include/events.h:186-189 | never more than `buffer_length − 1` pending messages |
| Events.Publisher.constructor | include/events.h:117-118 | a new publisher has nothing pending, no subscriber and no call made |
| Events.Publisher.CreateNewSub | include/events.h:154-163 | appends one ready subscriber with the given filter (0 for the overload without one) and changes nothing else |
| Events.Publisher.End | include/events.h:107-110 | only that subscriber changes, and it is no longer ready |
| Events.Publisher.NewEvent | include/events.h:168-180 | the pending messages become the newest `buffer_length − 1` of the old ones followed by the new message |
| Events.Publisher.DispatchStep | include/events.h:122-144 | nothing changes with nothing pending; otherwise the oldest message leaves the ring, every ready subscriber whose filter accepts it is called in order, and the ended subscribers are removed |
| Pipelines.GetQueueRequirements | pipelines.h:58-61 | the base pipeline asks for no queue; an `EnginePipeline` asks for its two template counts (lines 165-168) |
| Pipelines.CountBindingsCounts | pipelines.h:243-251 | after counting a layout's bindings, each type's pool size is its old size plus the number of bindings of that type, and a type has an entry exactly when it had one or occurs in the layout |
| Pipelines.CountBindings | pipelines.h:244-251 | counting a layout's bindings keeps every existing pool entry and never lowers its descriptor count |
| Pipelines.WriteFor | pipelines.h:451-463 | the write for a bound slot targets that set and binding with the slot's type; it carries image information exactly for combined image samplers and storage images, and buffer information exactly for uniform buffers |
| Pipelines.RowWritesExactly | pipelines.h:449-465 | a write is issued for a set exactly when some slot of that set is bound (binding location not `UINT32_MAX`) and the write is built from it |
| Pipelines.WritesSound | pipelines.h:446-466 | every write issued comes from a bound slot of some set |
| Pipelines.WritesComplete | pipelines.h:446-466 | every bound slot of every set gets its write |
| Pipelines.WritesExactly | pipelines.h:446-466 | a write is issued exactly when it is built from a bound slot of some set |
| Pipelines.EnginePipeline.Requirements | pipelines.h:165-168 | the pipeline reports its template graphics and compute queue counts |
| Pipelines.EnginePipeline.Rows | pipelines.h:490-492 | the descriptor table has one row per set and one slot per image, buffer and sampler |
| Pipelines.EnginePipeline.constructor | pipelines.h:479-505 | a new pipeline is not set up, has no pre-render stage, set counter 0, no pool sizes, views or allocations, and every slot unbound |
| Pipelines.EnginePipeline.CreateGraphicsQueues | pipelines.h:110-116 | queue `i` of the pipeline is queue `start + i` (in `uint32_t`) of its graphics family, for every `i` below the graphics queue count |
| Pipelines.EnginePipeline.Setup | pipelines.h:148-163 | with graphics queues it stores the family and start index, fetches the queues and creates the command pool; with compute queues it stores the compute family and start index; otherwise those fields are untouched; the memory properties are stored; the pipeline is never marked set up (lines 46-52) |
| Pipelines.EnginePipeline.AddDescriptorLayoutSets | pipelines.h:236-254 | returns the current set counter and increments it, stores the layout under that id and leaves the other layouts alone, and counts the bindings into the pool sizes |
| Pipelines.EnginePipeline.BindInSets | pipelines.h:309-319 | slot `bindingLocation` of every listed set holds the entry, and every other slot is unchanged |
| Pipelines.EnginePipeline.CreateNewImage | pipelines.h:256-323 | records the image under its id, appends a device-local allocation of the first-fit memory type (type 0 when none matches, `MemoryTypeIndex`) and the new view; unless the first set id is invalid, binds the image as a combined image sampler (with a sampler) or a storage image (without) at the binding location of every listed set; nothing else changes |
| Pipelines.EnginePipeline.CreateNewImageInSet | pipelines.h:324-331 | the single-set overload has the effect of the list overload with a one-element list |
| Pipelines.EnginePipeline.CreateNewBuffer | pipelines.h:333-370 | allocates memory of the first-fit type for the requested properties (type 0 when none matches, `MemoryTypeIndex`), maps it exactly when host visibility is requested, records the buffer descriptor over the whole allocation, and unless the first set id is invalid binds a uniform buffer of the requested size in every listed set |
| Pipelines.EnginePipeline.CreateNewBufferInSet | pipelines.h:371-377 | the single-set overload binds the buffer in that set only, with the same allocation, mapping and descriptor |
| Pipelines.EnginePipeline.CreateNewBufferUnbound | pipelines.h:378-384 | the unbound overload records the buffer but changes no slot of any set |
| Pipelines.EnginePipeline.CreateNewSampler | pipelines.h:386-405 | records the sampler under its id and, unless the first set id is invalid, binds it as a combined image sampler carrying only the sampler in every listed set |
| Pipelines.EnginePipeline.CreateNewSamplerInSet | pipelines.h:407-413 | the single-set overload binds the sampler in that set only |
| Pipelines.EnginePipeline.CreateNewSamplerUnbound | pipelines.h:414-419 | the unbound overload records the sampler but changes no slot of any set |
| Pipelines.EnginePipeline.SetupPipeline | pipelines.h:421-466 | the pool gets one set per layout and the counted pool sizes, and the write list is exactly the writes of the bound slots, set by set and slot by slot |
| Pipelines.EnginePipeline.SetWrites | pipelines.h:448-465 | the inner loop issues the writes of one set's bound slots in slot order |
| Pipelines.EnginePipeline.WritesCoverBoundSlots | pipelines.h:446-466 | a write is issued exactly when some slot of some set is bound and the write is built from it |
| Host.OrderedAppend | engine.cpp:256-263 | calls to one pipeline appended after calls to earlier pipelines keep registration order |
| Host.PreRenderCallsExactly | engine.cpp:238-242 | a frame calls PreRender, with the window extents, on exactly the pipelines that have a pre-render stage |
| Host.PreRenderCallsOrdered | engine.cpp:238-242 | PreRender calls go to the pipelines in registration order, each at most once |
| Host.DrawCallsExactly | engine.cpp:256-263 | a frame calls Compute on exactly the pipelines requiring compute queues and Render, with the window extents, on exactly those requiring graphics queues, and makes no other call in the render pass |
| Host.DrawCallsOrdered | engine.cpp:256-263 | draw calls go to the pipelines in registration order, a pipeline's Compute before its Render |
| Host.PipelineDrawCallsOrdered | engine.cpp:258-263 | one pipeline's draw calls all go to it, and its Compute comes before its Render |
| Host.BasePipelineNeverDrawn | pipelines.h:58-61 | a bare base-class pipeline asks for no queue and is never computed or rendered |
| Host.FenceWaitsUntilSignalled | engine.cpp:278-283 | the fence is waited on until it signals: every wait before the last timed out, and the last saw the fence signalled |
| Host.AcquiredCallsNoPreRender | engine.cpp:244-302 | no PreRender call is made after the image is acquired |
| Host.FramePreRenderBeforeAcquire | engine.cpp:238-247 | within a frame every PreRender call comes before the image acquisition, and nothing is drawn when acquisition fails |
| Host.FrameCalls | engine.cpp:236-302 | the calls of one render-loop iteration: begin, the pre-render calls, the acquisition, and only when it succeeds the render pass, draws, submission, fence waits, fence reset, presentation and the report of a suboptimal result |
| Host.FrameEnds | engine.cpp:236-302 | a frame opens the command buffer first; it ends with the presentation when the image was acquired (followed by the report for a suboptimal result), and with the acquisition when it was not |
| Host.SetupCharges | engine.cpp:114-128 | a setup pass leaves the queue maximums unchanged |
| Host.MarkSetUp | pipelines.h:63-66 | marking the first `n` pipelines as set up changes only their set-up flags |
| Host.SetupPass | engine.cpp:110-131 | a pass keeps the number of registered pipelines |
| Host.MarkSetUpKeepsSetUp | pipelines.h:85 | marking pipelines that are already set up changes nothing |
| Host.MarkSetUpStep | pipelines.h:85 | marking one more pipeline changes that pipeline alone |
| Host.SetupChargesSkipSetUp | engine.cpp:116 | a pass over pipelines that are all set up issues no setup and charges nothing |
| Host.SetupPassIdempotent | engine.cpp:116-128 | if Setup marked pipelines as set up, a second pass would set up nothing and change no counter |
| Host.RepeatedPassRecharges | pipelines.h:46-52 | since Setup never marks a pipeline, a second pass sets the same pipeline up again at a new start index and charges its queue again |
| Host.SetupOrderKept | engine.cpp:116-128 | visiting pipeline `m` after the earlier ones keeps the setup calls in registration order and limited to pipelines not set up |
| Host.SetupPassOrdered | engine.cpp:114-128 | a pass sets up pipelines in registration order, and only those not set up before it |
| Host.ResizedCalls | engine.h:84-85 | one Resized notification per pipeline, in registration order |
| Host.CleanupCalls | engine.cpp:38-42 | one cleanup per pipeline, in registration order |
| Host.Engine.constructor | engine.h:187 | a new engine is not rendering, has the default 1536×768 extents, no announced pipeline (line 211), no pipeline and no call made |
| Host.Engine.FindQueueFamilies | vk_utils.cpp:330-352 | the graphics choice is the last graphics family, with its queue count as maximum and one queue fewer available; the compute choice is the last family passing the XOR test, with all its queues; the present choice is the last family that can present; a choice with no candidate leaves its fields as they were |
| Host.Engine.QueuePipelines | engine.h:57-59 | the pending counter grows by `n` in `uint32_t` |
| Host.Engine.DequeuePipelines | engine.h:60-62 | the pending counter drops by `n` in `uint32_t` |
| Host.Engine.NewPipeline | engine.cpp:94-108 | appends the pipeline, lowers the pending counter by one, sets the pipeline up at start indices max − available, then charges its requirement to the available counts |
| Host.Engine.CreateControlGraphicsPipeline | engine.cpp:80-92 | sets up the control pipeline at the current start indices and charges its one graphics queue |
| Host.Engine.SetupPassLoop | engine.cpp:114-129 | the loop over the registered pipelines produces exactly the calls, budget and pipelines of one setup pass |
| Host.Engine.RunSetupPass | engine.cpp:114-129 | the engine's calls, counters and pipelines are updated by exactly one setup pass |
| Host.Engine.CreateComponentPipelines | engine.cpp:110-131 | nothing changes while pipelines are still announced; otherwise every pipeline not reporting itself set up is set up and charged, and no pipeline becomes set up |
| Host.Engine.CreateComponentPipelinesMarking | engine.cpp:110-131 | the same pass with a Setup that marks pipelines: afterwards every pipeline is set up |
| Host.Engine.StartRender | engine.cpp:178-181 | rendering is enabled and the render thread is started |
| Host.Engine.CollectResized | engine.h:84-85 | the loop issues exactly one Resized call per pipeline in registration order |
| Host.Engine.CollectCleanups | engine.cpp:38-42 | the loop issues exactly one cleanup per pipeline in registration order |
| Host.Engine.CollectPreRender | engine.cpp:238-242 | the loop issues exactly the frame's PreRender calls |
| Host.Engine.CollectDraws | engine.cpp:256-263 | the loop issues exactly the frame's Compute and Render calls |
| Host.Engine.WaitForFence | engine.cpp:278-283 | the do-while loop waits once per result up to the first signal |
| Host.Engine.RenderFrame | engine.cpp:228-303 | one iteration issues exactly the frame's calls; rendering stays enabled unless the image was acquired and presentation found the swapchain out of date |
| Host.Engine.UpdateWindowExtents | engine.h:69-89 | the change flag is always set; an unchanged size changes nothing else; a new size disables rendering, joins the thread, stores the extents, rebuilds swapchain, views and depth buffer, notifies every pipeline in order and restarts rendering |
| Host.Engine.Destroy | engine.cpp:32-72 | rendering is stopped and the thread joined, every pipeline is cleaned up in registration order, then framebuffers, views, depth buffer, memory, command pools, swapchain and surface are released |
| EnvGraph.FirstSuitable | src/vk/subsystem.cc:371-378 | the chosen index is a suitable device with no suitable device before it; no choice means no device is suitable |
| EnvGraph.IsPhyDeviceSuitable | src/vk/subsystem.cc:331-344 | a device is suitable when it is a discrete GPU with geometry shaders and multiple viewports, supports every required extension, and offers at least one surface format and one present mode |
| EnvGraph.QueueCreateInfos | src/vk/subsystem.cc:590-610 | a graphics info with the available graphics queues, a compute info with the available compute queues, and a one-queue present info only when the present family differs from the compute family |
| EnvGraph.GraphicsSubsystem.constructor | include/vk/subsystem.h:96-140 | not initialized, not rendering, every family index `VK_QUEUE_FAMILY_IGNORED`, every queue count 0 |
| EnvGraph.GraphicsSubsystem.Init | src/vk/subsystem.cc:46-55 | once initialized, a call succeeds and changes nothing; otherwise it succeeds exactly when instance, a suitable device, a present family, device and swapchain all come up, marks the subsystem initialized only then, and leaves the queue families and counters as `Adopted` gives them for the first suitable device (unchanged when no device is reached) |
| EnvGraph.GraphicsSubsystem.InitVulkan | src/vk/subsystem.cc:346-398 | succeeds exactly when every bring-up step succeeds and marks the subsystem initialized only then; once the first suitable device is reached, its image limit is kept and the queue families and counters are `Adopted` from its families; before that, nothing changes |
| EnvGraph.GraphicsSubsystem.UseDevice | src/vk/subsystem.cc:393-396 | keeps the chosen device's image limit, sets the queue families and counters as `Adopted` gives them for its families, and the queue setup succeeds exactly when a present family is known |
| EnvGraph.GraphicsSubsystem.PickPhysicalDevice | src/vk/subsystem.cc:371-378 | the device loop picks exactly the first suitable device |
| EnvGraph.Adopted | src/vk/subsystem.cc:547-578 | the queue fields after the family scan: a present family is taken from the families when one supports presentation, and otherwise the old one stays |
| EnvGraph.AdoptedPresentKnown | src/vk/subsystem.cc:553-578 | after the scan a present family is known exactly when some family supports presentation or one was known before |
| EnvGraph.GraphicsSubsystem.SetupQueues | src/vk/subsystem.cc:547-612 | the last graphics family and the last family passing the compute test set index, max and available; the last present-capable family becomes the present family; families no family matched stay as they were; success exactly when a present family is known, with the create infos of `QueueCreateInfos` |
| EnvGraph.GraphicsSubsystem.AdoptFamilies | src/vk/subsystem.cc:552-571 | records exactly the picked families and their queue counts and leaves the fields of an unmatched test unchanged |
| EnvGraph.GraphicsSubsystem.DeInit | src/vk/subsystem.cc:57-90 | when initialized, releases framebuffers, views, depth image, memory, pools, swapchain and surface in that order; otherwise does nothing |
| EnvGraph.GraphicsSubsystem.Start | src/vk/subsystem.cc:92-95 | enables rendering and starts the render thread |
| EnvGraph.GraphicsSubsystem.NewPipeline | src/vk/subsystem.cc:226-237 | registers the pipeline, sets it up at start indices max − available and charges its requirement |
| EnvGraph.FirstSuitableIsFirst | src/vk/subsystem.cc:371-378 | when no device before `i` is suitable, a suitable device at `i` is the first suitable one, and reaching the end means there is none |
| EnvGraph.GraphicsSubsystem.UpdateRenderResolution | include/vk/subsystem.h:56-71 | while rendering: stops, rebuilds swapchain, image views and depth stencil, and starts again, ending enabled; otherwise changes nothing |
| EnvGraph.Engine.constructor | include/engine.h:101 | the render resolution starts at {0, 0} |
| EnvGraph.Engine.SetRenderResolution | include/engine.h:83-94 | succeeds exactly when the subsystem's limits accept the resolution, storing it only then; the rebuild happens only on success with `end` set while rendering; the enabled flag ends as it began |
| EnvGraph.GraphicsSubsystem.CheckRenderResolutionLimits | src/vk/subsystem.cc:300-304 | a resolution is accepted when neither dimension exceeds the device's `maxImageDimension2D` |
| EnvGraph.Engine.GetRenderResolution | include/engine.h:79-82 | the render resolution last stored by `SetRenderResolution` |
| KinectMesh.KinectMeshPipeline.constructor | pipelines/kinect_mesh.h:91-93 | default 512×512 extents, a zeroed scan buffer of width × height points and no callback |
| KinectMesh.KinectMeshPipeline.GetScanExtents | pipelines/kinect_mesh.h:50 | the extents are the defaults, 262144 points |
| KinectMesh.KinectMeshPipeline.IsValid | pipelines/kinect_mesh.h:52-55 | a pipeline is valid when both scan dimensions are non-zero and a buffer callback is installed |
| KinectMesh.KinectMeshPipeline.SetupBufferCallback | pipelines/kinect_mesh.cpp:210-212 | installs the callback and leaves the scan buffer unchanged |
| KinectMesh.KinectMeshPipeline.ScanBufferBytes | pipelines/kinect_mesh.cpp:146 | the vertex buffer holds three 16-byte `vec4`s per scan point, 12582912 bytes |
| KinectMesh.ValidityFollowsCallback | pipelines/kinect_mesh.h:52-55 | a new pipeline is not valid, and it is valid after installing a callback exactly when the callback is non-empty |
| Prims.Corner | ui/prims.h:38-66 | each corner takes one of the two x values and one of the two y values of the rectangle |
| Prims.QuadVertex | ui/prims.h:38-66 | a quad vertex takes position and texture corner `k` and the colour, and keeps its active flag |
| Prims.CreateQuad | ui/prims.h:38-66 | the six vertices from `at` show the quad, every other vertex is unchanged |
| Prims.QuadAtFrame | ui/prims.h:38-66 | a drawn quad stays drawn while its six vertices are left alone |
| Prims.CreateCube | ui/prims.h:99-123 | six quads at vertices 0, 6, …, 30, the rest of the buffer unchanged, and the vertex count raised by 36 in `uint32_t` |
| UI.LeastOf | pipelines/ui.h:140 | a non-empty key set has a least key |
| UI.MinExists | pipelines/ui.h:140 | a non-empty key set has a key no greater than any other |
| UI.MinKey | pipelines/ui.h:140 | the result is a key of the set and no greater than any of its keys |
| UI.SortedKeys | pipelines/ui.cpp:428-429 | `std::map` iteration order: every key exactly once, strictly ascending |
| UI.PrependLeast | pipelines/ui.cpp:428-429 | the least key followed by the other keys in ascending order is ascending |
| UI.EmplaceFirstKeys | pipelines/ui.cpp:407-408 | after `try_emplace` of the first `n` pairs the keys are the old keys plus the first `n` ids, and old entries are untouched |
| UI.EmplaceFirstDistinct | pipelines/ui.cpp:407-408 | with distinct ids, into an empty map, each id holds its own value |
| UI.TryEmplace | pipelines/ui.cpp:408 | after `try_emplace` the key is present and holds the entry already filed under it, or the new value when there was none |
| UI.EmplaceSortedKeys | pipelines/ui.cpp:428-429 | one value per key of a set, inserted into an empty map, gives exactly those keys |
| UI.EmplaceSortedValues | pipelines/ui.cpp:428-429 | under ascending keys, each key of the new map holds the value inserted at its position |
| UI.Contents | pipelines/ui.cpp:428-429 | the label contents in the order of the given keys |
| UI.Remaining | pipelines/ui.cpp:424-429 | the contents re-added by `RemoveLabel`: one per key other than the removed id, in ascending key order |
| UI.NextKey | pipelines/ui.cpp:429 | `++it` on a `std::map` that gained keys: the least key not below the current one's successor, in the map as it now is, or none when every key lies below |
| UI.VisitsAbove | pipelines/ui.cpp:428-429 | while the keys above the iterator are the original ones (every fresh id lies below them), the range-for visits exactly the original labels above it, once each, in key order |
| UI.VisitsSnapshot | pipelines/ui.cpp:424-429 | when every fresh id lies below every key left after the erase, the range-for re-adds exactly the `Remaining` labels, once each |
| UI.VisitsStep | pipelines/ui.cpp:428-430 | one turn of the range-for: the label visited is the one under the next key, it is filed under the next random id with the running `uint32_t` count as first vertex, and the walk goes on from that key in the map as it now is |
| UI.PlacedLabelCount | pipelines/ui.cpp:397-405 | the `uint32_t` count after `n` labels, grown by six per character of the next, is the count after `n + 1`; the label records the first and last vertex of that step |
| UI.OffsetMonotone | pipelines/ui.cpp:397-405 | the first vertex of a later label is never below that of an earlier one |
| UI.PlacedLabel | pipelines/ui.cpp:397-405 | a label added from the running count starts after the characters of the labels before it, and its range ends where the next starts |
| UI.Placed | pipelines/ui.cpp:397-405 | every label of a sequence added from vertex 0 is placed as `PlacedLabel` says |
| UI.PlacedButtons | pipelines/ui.cpp:441-470 | buttons added from vertex 0 record first vertex `6 i` and last vertex `6 i + 5` |
| UI.ButtonContents | pipelines/ui.cpp:491-492 | the button contents in the order of the given keys |
| UI.RemainingButtons | pipelines/ui.cpp:487-492 | the contents re-added by `RemoveButton`: one per key other than the removed id, in ascending key order |
| UI.ButtonVisitsAbove | pipelines/ui.cpp:491-492 | while the keys above the iterator are the original ones, the range-for of `RemoveButton` visits exactly the original buttons above it, once each, in key order |
| UI.ButtonVisitsSnapshot | pipelines/ui.cpp:487-492 | when every fresh id lies below every key left after the erase, the range-for re-adds exactly the `RemainingButtons`, once each |
| UI.ButtonVisitsStep | pipelines/ui.cpp:491-492 | one turn of the button range-for: the button under the next key is filed under the next random id with first vertex `6 n` (in `uint32_t`) and the walk goes on from that key |
| UI.PlacedButtonCount | pipelines/ui.cpp:465-470 | the `uint32_t` count after `n` buttons plus six is the count after `n + 1`; the button records that step's first and last vertex |
| UI.SliceWithin | pipelines/ui.cpp:366-383 | buffers agreeing on a range agree on every range inside it |
| UI.QuadAtWithin | pipelines/ui.cpp:366-383 | a quad stays drawn in a buffer that agrees on a range holding it |
| UI.ButtonsDrawnStep | pipelines/ui.cpp:491-492 | drawing the next button while keeping the earlier ones' vertices extends the drawn prefix by one |
| UI.LabelDrawnFrame | pipelines/ui.cpp:397-405 | a drawn label stays drawn while its vertices are left alone |
| UI.PlacedDrawnFrame | pipelines/ui.cpp:428-429 | labels laid out from vertex 0 stay drawn while the vertices below their total are left alone |
| UI.PlacedDrawnStep | pipelines/ui.cpp:428-429 | drawing the next label while keeping the earlier ones' vertices extends the drawn prefix by one |
| UI.RedrawKeepsIsolated | pipelines/ui.cpp:370-381 | redrawing another label leaves a label whose range meets no other drawn |
| UI.RedrawStep | pipelines/ui.cpp:370-381 | redrawing the label of the next key keeps every isolated label so far drawn |
| UI.IsolatedDrawnAll | pipelines/ui.cpp:370-381 | after visiting every key, every isolated label is drawn |
| UI.PlacedEntriesDrawn | pipelines/ui.cpp:428-429 | every entry of a map of placed labels is drawn at its recorded first vertex |
| UI.PlacedEntriesContents | pipelines/ui.cpp:428-429 | every entry of that map keeps the content it had before |
| UI.LabelsRebuiltFrom | pipelines/ui.cpp:422-433 | re-adding the remaining labels in key order under their own ids gives the old keys minus the removed id, the same contents, each drawn at its recorded first vertex |
| UI.RebuiltLabelsDrawn | pipelines/ui.cpp:422-433 | the same for the contents `Remaining` computes, in `SortedKeys` order |
| UI.PlacedButtonEntries | pipelines/ui.cpp:491-492 | every entry of a map of placed buttons keeps its content and is drawn at its recorded first vertex |
| UI.ButtonsRebuiltFrom | pipelines/ui.cpp:485-496 | re-adding the remaining buttons in key order under their own ids gives the old keys minus the removed id, the same contents, each drawn at its recorded first vertex |
| UI.RebuiltButtonsDrawn | pipelines/ui.cpp:485-496 | the same for the contents `RemainingButtons` computes, in `SortedKeys` order |
| UI.RemainingSolid | pipelines/ui.cpp:428-429 | labels re-added after a removal are all solid-colour, so none is refused |
| UI.RemainingButtonsSolid | pipelines/ui.cpp:491-492 | buttons re-added after a removal are all solid-colour, so none is refused |
| UI.ClearVertices | pipelines/ui.cpp:431-432 | the vertices from the new count up to the old one become the default vertex; the rest stays |
| UI.ClearTail | pipelines/ui.cpp:431-432 | the clear loop resets every vertex from the new count up to the old one that lies in the buffer, leaves all others, and reports a write past the end exactly when the old count lies past it |
| UI.UIPipeline.constructor | pipelines/ui.h:135-145 | counts 0, empty maps, default window extents, and default-valued buffers of `kInitialLabelVertexBufferSize` (ui/items.h:24) vertices |
| UI.UIPipeline.DrawLabelChars | pipelines/ui.cpp:397-405 | character `c` is drawn as its glyph quad at vertex `at + 6 c`; nothing outside the label's range changes |
| UI.UIPipeline.AddLabel | pipelines/ui.cpp:385-420 | a solid label records the current count as first vertex; the `uint32_t` count grows by six per character and the vertex before it is the last; the label is filed with `try_emplace` under the returned random id; the characters are drawn there when they fit, and otherwise the writes go past the buffer's end; other textures return `kInvalidLabelID` and change nothing |
| UI.UIPipeline.AddLabels | pipelines/ui.cpp:428-429 | the intended re-adding loop: from count 0 the labels end up laid out from vertex 0, drawn there, and filed in order under the given ids |
| UI.UIPipeline.RebuildLabels | pipelines/ui.cpp:425-432 | intended: count reset, labels re-added and filed in order under the given ids, and the vertices from the new count up to the old one cleared within the buffer |
| UI.UIPipeline.ReAddLabels | pipelines/ui.cpp:428-430 | as written: the range-for visits the labels `Visits` walks (copies filed above the iterator included), lays them out from vertex 0 in `uint32_t`, files each under the next random id beside the old entries, and draws them unless a write went past the buffer's end |
| UI.Visits | pipelines/ui.cpp:429-430 | the labels the range-for re-adds, in key order, including copies filed above the iterator |
| UI.VisitsFromMap | pipelines/ui.cpp:429-430 | every label the range-for re-adds has the content of a label filed before the loop began, whatever ids `std::rand` returns |
| UI.UIPipeline.RemoveLabel | pipelines/ui.cpp:422-433 | as written: the id is erased; the labels the range-for visits are laid out again from vertex 0 and drawn, each filed under a fresh id beside its old entry; a write past the buffer's end is flagged; otherwise the vertices from the new count up to the old one are cleared |
| UI.UIPipeline.RemoveLabelKeepingIds | pipelines/ui.cpp:422-433 | intended: the keys are the old ones minus the id, every label keeps its content and is drawn at its recorded first vertex, and the freed vertices are cleared |
| UI.UIPipeline.RedrawLabels | pipelines/ui.cpp:370-381 | the loop of `Resized` leaves every isolated label among the visited keys drawn |
| UI.UIPipeline.Resized | pipelines/ui.cpp:366-383 | stores the new extents; unless a write has gone past a buffer's end, each label whose range meets no other is drawn for the new extents at its recorded first vertex; counts and maps are unchanged |
| UI.UIPipeline.AddButton | pipelines/ui.cpp:436-479 | as written: a solid button records the current count as first vertex, the `uint32_t` count grows by six with no bound (a 65th button is accepted), but its quad is written at vertex 0 and nothing else changes; other textures return `kInvalidButtonID` and change nothing |
| UI.UIPipeline.AddButtonInPlace | pipelines/ui.cpp:436-479 | intended: the quad is written at the button's own first vertex when it fits, and otherwise past the buffer's end; the rest as `AddButton` |
| UI.UIPipeline.AddButtonsInPlace | pipelines/ui.cpp:491-492 | the same loop through the intended `AddButton` draws button `i` at vertex `6 i` |
| UI.UIPipeline.RebuildButtonsInPlace | pipelines/ui.cpp:488-495 | the intended rebuild: count `6 n`, buttons filed in order, button `i` drawn at vertex `6 i`, freed vertices cleared within the buffer, and a write past its end flagged when the old count lay past it |
| UI.UIPipeline.ReAddButtons | pipelines/ui.cpp:491-493 | as written: the range-for visits the buttons `ButtonVisits` walks, counts six per button in `uint32_t`, files each under the next random id beside the old entries, and leaves the last one visited as the quad at vertex 0 |
| UI.ButtonVisits | pipelines/ui.cpp:492-493 | the buttons the range-for re-adds, in key order, including copies filed above the iterator |
| UI.ButtonVisitsFromMap | pipelines/ui.cpp:492-493 | every button the range-for re-adds has the content of a button filed before the loop began |
| UI.UIPipeline.RemoveButton | pipelines/ui.cpp:485-496 | as written: the id is erased; the buttons the range-for visits are re-added under fresh ids beside their old entries, the last one shown at vertex 0; freed vertices are cleared within the buffer and a write past its end is flagged when the old count lay past it |
| UI.UIPipeline.RemoveButtonKeepingIds | pipelines/ui.cpp:485-496 | intended: the keys are the old ones minus the id, every button keeps its content and is drawn at its recorded first vertex, and the freed vertices are cleared within the buffer |
| UI.RemoveLabelRevisits | pipelines/ui.cpp:428-430 | one label under id 1, removing absent id 2, random ids 5 then 3: the range-for reaches the copy filed under 5 and re-adds the label twice, 24 vertices are counted, and the map holds ids 1, 3 and 5 |
| UI.SecondButtonLeftBlank | pipelines/ui.cpp:465-470 | after two solid buttons, the second owns vertices 6 to 11 but vertex 6 still holds the default vertex |
| Radio.FloatDiv | pipelines/radio.cpp:69-78 | the float quotient by a sample count is a number exactly when the count is non-zero, and NaN exactly for zero over zero |
| Radio.ShiftedSlot | pipelines/radio.cpp:19-29 | the slot lies inside the row, and bins of the upper half land in the lower half and vice versa |
| Radio.ShiftedSlotInvolution | pipelines/radio.cpp:19-29 | shifting twice returns the bin, so no two bins share a slot |
| Radio.FftShift | pipelines/radio.cpp:128-132 | the shifted row has one entry per bin |
| Radio.FftShiftAt | pipelines/radio.cpp:19-32 | slot `j` holds bin `ShiftedSlot(j)` and bin `j` is found at slot `ShiftedSlot(j)` |
| Radio.FftShiftPermutes | pipelines/radio.cpp:128-132 | the shift is a permutation of the bins and is its own inverse |
| Radio.SignalCalc.constructor | pipelines/radio.cpp:87-95 | fresh averaging rows of the instantiation's size, row position 0, not overflown |
| Radio.SignalCalc.ResetRound | pipelines/radio.cpp:106-113 | the first `2 * buffer_size` signal floats and every averaging cell become zero, row position 0, not overflown; the rest of the signal data is untouched |
| Radio.SignalCalc.AverageFunction | pipelines/radio.cpp:15-53 | one pass writes its half of the bins into the current row at their shifted slots and leaves every other cell unchanged |
| Radio.SignalCalc.AddSample | pipelines/radio.cpp:128-139 | the current row becomes the shifted spectrum, other rows are unchanged, and the position advances, wrapping to 0 and setting `overflown` after the last row |
| Radio.SignalCalc.ZeroRowsAddNothing | pipelines/radio.cpp:63-67 | rows holding only zeros add nothing to a column sum |
| Radio.SignalCalc.Divisor | pipelines/radio.cpp:69-78 | the divisor is `avg_count` once the rows wrapped, else the rows filled this round |
| Radio.SignalCalc.LineValueIsMean | pipelines/radio.cpp:58-79 | the line value is the column's mean over the rows filled this round, and NaN when no FFT was folded in since the reset |
| Radio.SignalCalc.SetLineVertices | pipelines/radio.cpp:58-79 | both end points get the line value, the returned sum is the column sum over all rows, nothing else changes |
| Radio.SignalCalc.FillLineVertices | pipelines/radio.cpp:142-172 | float 0 takes point 0 and floats `2k+1`, `2k+2` take point `k`, so consecutive lines join; floats past `2 * buffer_size` are untouched |
| Radio.SignalCalc.FillUpperLines | pipelines/radio.cpp:156-163 | the points of the upper half go to floats `2k+1`, `2k+2`; floats up to `buffer_size` are untouched |
| Radio.SignalCalc.FillLowerLines | pipelines/radio.cpp:165-172 | the points of the lower half go to floats `2k+1`, `2k+2`; float 0 and floats past `buffer_size` are untouched |
| Radio.NextTimePos | pipelines/radio.cpp:354-357 | the increment with reset at `kMaxTimeDepth` keeps the row inside the ring and is the successor modulo `kMaxTimeDepth` |
| Radio.AdvanceTimePos | pipelines/radio.cpp:354-357 | advancing the time row frame by frame always leaves it inside the ring of `kMaxTimeDepth` rows |
| Radio.AdvanceTimePosCycles | pipelines/radio.cpp:354-357 | `k` frames from row `p` reach `(p + k) mod kMaxTimeDepth`, so each row is refreshed once every 2048 frames |
| Radio.DrawVertexCount | pipelines/radio.cpp:428 | the drawn vertices hold exactly one row per time position and fit inside the vertex buffer made at lines 310-313 |
| Radio.RadioPipeline.constructor | pipelines/radio.cpp:261 | time position 0 as `CreateViewModelProjection` sets it, not paused |
| Radio.RadioPipeline.PreRender | pipelines/radio.cpp:350-413 | unless paused, advances the time position round the ring, publishes it, and copies one row to the previous position's row, inside the vertex buffer; paused, changes nothing |
| Radio.RadioPipeline.Render | pipelines/radio.cpp:415-434 | unless paused, draws every row of the ring and leaves the state as it was; paused, draws nothing and acknowledges the pause |
| Radio.RadioPipeline.PauseRender | pipelines.h:170-175 | raises the pause signal and changes nothing else |
| Logging.PrefixAssoc | include/log.h:120-189 | text copied in two stages equals the same text copied at once before the rest of the scan |
| Logging.RunEnd | include/log.h:126-127 | the end of a character run lies between its start and the terminator |
| Logging.Stoi | include/log.h:142 | `std::stoi` yields an `int`, throws `invalid_argument` without a leading digit and otherwise only `invalid_argument` or `out_of_range` |
| Logging.CleanupEnd | include/log.h:184-185 | the cleanup loop stops between its start and the terminator |
| Logging.ParsePrecision | include/log.h:146-157 | the precision part ends inside the string, and fails only the way `std::stoi` fails |
| Logging.ParseFlags | include/log.h:126-145 | the flag run ends inside the string, and fails only the way `std::stoi` fails |
| Logging.ParseSpec | include/log.h:123-186 | a specifier ends at most one past the terminator as written, and inside the string with the corrected resume; it fails only the way `std::stoi` fails |
| Logging.LitNext | include/log.h:105-108 | a literal, or `%%`, advances the scan and stays inside the string |
| Logging.ScanRun | include/log.h:126-127 | the character loop stops exactly where the run of the class ends |
| Logging.ScanFlags | include/log.h:126-145 | the flag loop and width conversion compute exactly `ParseFlags` |
| Logging.ScanPrecision | include/log.h:146-157 | the precision branch computes exactly `ParsePrecision` as written |
| Logging.SkipSpecifierTail | include/log.h:184-185 | the cleanup loop stops exactly at `CleanupEnd` |
| Logging.ParseSpecifier | include/log.h:123-185 | the specifier branch computes exactly `ParseSpec` as written |
| Logging.LogNoArgs | include/log.h:100-115 | the overload without arguments produces exactly the entry `Scan0` describes, or throws "Not enough args" |
| Logging.LogArgs | include/log.h:117-192 | the recursive overload produces exactly the entry `ScanN` describes, or the error that stopped it |
| Logging.FormatEntry | include/log.h:194-205 | `Log(format, args...)` produces exactly `Format` of its argument count |
| Logging.Format | include/log.h:194-205 | `Log(format, args...)` with `n` arguments: the scan without arguments when `n` is 0, otherwise the scan that consumes arguments 0 to `n - 1` |
| Logging.Scan0ThenTooMany | include/log.h:191 | where the no-argument scan succeeds, any argument left over makes the call throw "Too many args" |
| Logging.ScanNThenNotEnough | include/log.h:105-106 | where the scan with arguments still reaches a specifier, the no-argument scan throws "Not enough args" |
| Logging.FewerArgs | include/log.h:105-106 | fewer arguments than a successful scan needs makes it throw "Not enough args" |
| Logging.FewerArgStep | include/log.h:123-186 | the same at a specifier |
| Logging.FewerContinue | include/log.h:186 | the same after the recursive call |
| Logging.MoreArgs | include/log.h:191 | more arguments than a successful scan needs makes it throw "Too many args" |
| Logging.MoreArgStep | include/log.h:123-186 | the same at a specifier |
| Logging.MoreContinue | include/log.h:186 | the same after the recursive call |
| Logging.ArgCountExact | include/log.h:100-192 | a format string accepts exactly one argument count: fewer throws "Not enough args", more throws "Too many args" |
| Logging.ArgIndicesAppend | include/log.h:177 | the arguments of joined texts are those of each, in order |
| Logging.Indices | include/log.h:186 | `k, k+1, ..., k+n-1` |
| Logging.Scan0NoArgs | include/log.h:100-109 | the no-argument overload formats no argument |
| Logging.ScanNArgsInOrder | include/log.h:117-192 | a successful scan formats arguments `k` to `k+n-1`, each once, in order |
| Logging.ArgStepArgsInOrder | include/log.h:158-186 | the same from a specifier |
| Logging.ContinueArgsInOrder | include/log.h:186 | the recursive call formats the remaining arguments in order |
| Logging.ArgsInOrder | include/log.h:200-205 | a successful call formats every argument exactly once, in the order given |
| Logging.Lits | include/log.h:108 | one literal per character |
| Logging.PlainTail | include/log.h:100-109 | a tail without `%` is copied as it stands |
| Logging.PlainFormat | include/log.h:100-192 | a string without `%` is logged as it stands without arguments and throws "Too many args" with any |
| Logging.EscapedChar | include/log.h:103-108 | both overloads write `%%` as one `%` and any other character as itself, and move past it |
| Logging.EscapedRun | include/log.h:101-108 | a run of text with every `%` doubled is copied as the undoubled text, and the scan goes on after it |
| Logging.EscapedFormat | include/log.h:100-192 | a format made by doubling every `%` of a text logs exactly that text without arguments, and throws "Too many args" with any |
| Logging.LoneSpecifierNeedsArgument | include/log.h:104-106 | without arguments, the first `%` not followed by `%` throws "Not enough args", whatever text came before it |
| Logging.FlagsWithWidth | include/log.h:126-145 | a leading `#` sets showbase, a `0` after it sets zero fill, and the digits after those are the width |
| Logging.FlagsWithoutWidth | include/log.h:126-145 | with no digits after the optional `#`, there is no width and no zero fill |
| Logging.PrecisionDigitsAsWritten | include/log.h:150 | as written `%.9f` gets no precision and `%.10f` precision 1; corrected, `%.9f` gets 9 |
| Logging.RunEndAt | include/log.h:150 | a run ending where the class ends is what `RunEnd` finds |
| Logging.StoiDigits | include/log.h:154 | `std::stoi` of a digit string that fits is its decimal value |
| Logging.CorrectedPrecision | include/log.h:146-157 | with the digit test `>= '0' && <= '9'`, the precision is the value of every digit after the `.` |
| Logging.TrailingPercentAsWritten | include/log.h:184-186 | as written `Log("%", x)` steps past the terminator; corrected, it formats the argument |
| Logging.Scan0InBounds | include/log.h:100-109 | the no-argument scan never reads past the terminator |
| Logging.ScanNInBounds | include/log.h:117-192 | with the corrected resume, the scan with arguments never reads past the terminator |
| Logging.ArgStepInBounds | include/log.h:158-186 | the same from a specifier |
| Logging.ContinueInBounds | include/log.h:186 | the same after the recursive call |
| Logging.NeverReadsPastEnd | include/log.h:184-186 | with the corrected resume no format string and no argument count reads past the terminator |
| Logging.Drain | include/log.h:31-57 | the writer emits each stored entry once |
| Logging.DrainSnoc | include/log.h:41-42 | the entry at the back is emitted first |
| Logging.DrainPushFront | include/log.h:113 | an entry pushed at the front is emitted after everything already stored |
| Logging.DrainPushAll | include/log.h:41-42 | the store is first in, first out: entries come out in the order they were logged |
| Logging.Logger.constructor | include/log.h:25-27 | logging and stdout off, no file, an empty store |
| Logging.Logger.InitLog | include/log.h:59-87 | only when off: takes the stdout flag, throws when the path names something other than a directory, else opens the file when a directory is given, empties the store and switches on; when on, changes nothing |
| Logging.Logger.DeInitLog | include/log.h:89-98 | only when on: switches off and joins the writer, which emits every stored entry oldest first, and closes the file |
| Logging.Logger.WriteOldest | include/log.h:36-52 | removes the entry at the back and emits it, so that emitted-then-pending order is kept |
| Logging.Logger.Log | include/log.h:100-115 | the formatted entry is pushed at the front whether or not logging is on; a call that throws stores nothing |

## Left out

- Vulkan and device calls are out of scope. The model records instance, device and swapchain creation, buffer, image and sampler creation, memory mapping, command recording, submission, barriers and present as opaque handles, as trace entries, or as outcomes passed in as parameters.
- Threads and synchronisation are sequentialised. This covers the render thread, the publisher thread, the log writer thread, the radio calculation thread, and the semaphores and mutexes between them. Each loop body is one sequential step.
- Radio.RadioPipeline.PauseRender: only raises the pause signal. Its spin-wait until `Render` acknowledges the pause is not modelled, because that needs a second thread.
- Floating point is modelled with reals or passed in as parameters:
  - glyph placement and alignment (`CreateLabelChar`, `CalculateLabelAlignmentAdjustment`) is a layout function given to the UI pipeline;
  - the font atlas supplies only the solid texel rectangle;
  - colour conversion is not modelled;
  - the `log10`/`sqrt` magnitudes of the FFT bins arrive as reals;
  - division by a sample count distinguishes a number, infinity and NaN, without rounding.
- `CreateCube` writes its six quads in order, not from six threads. Its inner `CreateQuad` call passes no colour, so the model passes the cube's colour. The unused `bufferIndex` argument is left out.
- Random label and button ids (`std::rand`) are parameters.
- The key order of `std::map` is modelled by `SortedKeys`, in ascending order.
- UI.UIPipeline.AddLabel: every character is assumed to have a glyph. The source looks glyphs up with `glyphs.at` (pipelines/ui.h:72-75). The font holds only the codepoints 0x20 to 0xFF that the font file provides (pipelines/ui.cpp:512-531). For any other character the lookup throws `std::out_of_range`. With centred alignment the throw comes before any write (pipelines/ui.cpp:328). Otherwise it comes after the earlier characters are drawn and counted, and the label is never filed (pipelines/ui.cpp:345, 398-405). Neither outcome is modelled, nor is the same throw from the re-adding loops of `RemoveLabel` and `Resized`.
- UI.UIPipeline.Resized: stated for labels whose vertex range meets no other label's. Where ranges overlap, which label's glyphs survive depends on the key order, and the contract does not say which.
- The log's timestamps, its stdout and file writes, the `.bak` copy of an existing log file, and the creation of the log directory are not modelled. The writer's output is the list of emitted entries.
- Stream formatting is not modelled: how `showbase`, fill, width and precision persist on the stream between arguments, and the text of hex, scientific and hexfloat output. The model records for each argument the specifier that formats it.
- The radio pipeline's `ChangeRadioRenderMode` restart of the calculation thread is not modelled, nor the `MAX_THROUGHPUT` render mode. Only the high-resolution mode is modelled.
- The engine's `CleanupEnginePipeline` hooks are trace entries. Their bodies are not part of this model.
- Radio.RadioPipeline.constructor: takes `m_pauseSignal` and `m_paused` (pipelines.h:182-183) as false. The source leaves them uninitialised.
- The Kinect mesh pipeline's shaders, MVP matrices and `PreRender`/`Render` are not modelled. Only its validity, scan extents and buffer sizing are.
- `checked_cast` is modelled only for the four unsigned widths. The signed-type `static_assert` is a compile-time refusal and is not modelled.
- The window system, input handling, `main.cpp`, the Rust prototype and the tests are not part of this model. `tests/depth/edge_ut.cc` is cited only for the Kinect validity property.
- `pipelines/control.cpp` is not part of this model: its `Setup` does not match its declaration. The control pipeline appears only through `CreateControlGraphicsPipeline` and its queue charge.
- Host.Engine.UpdateWindowExtents: always records a successful `JoinRenderThread`. The model keeps no thread state. The source calls `join()` with no `joinable()` check (engine.h:74), which throws `std::system_error` when the render thread was never started, for instance on a resize before `StartRender`.
- Host.Engine.Destroy: likewise always records the join (engine.cpp:36). In the destructor, a join on a thread that never started terminates the program.
- Host.Engine.RenderFrame: the present result is one of success, suboptimal and out-of-date. Any other present result escapes the render lambda (engine.cpp:287-295) and terminates the program; that outcome is not modelled.
- Events.Publisher.End: a subscriber handle is an index into the subscriber list, so it never dangles. In the source, `CreateNewSub` returns a pointer into a `std::vector` (include/events.h:154-163). A later `CreateNewSub` may reallocate the vector, and calling `End` through an earlier handle is then undefined behaviour; that case is not modelled.
- UI.UIPipeline: once a write goes past the end of a vertex buffer, the `overrun` flag is set. The source's behaviour is undefined from then on. The model keeps stating the counts and maps, but says nothing more about buffer contents, and `Resized` does not redraw.
- UI.UIPipeline.RemoveLabel and UI.UIPipeline.RemoveButton: the clear loop's `int v` is treated as unsigned. Counts above `INT_MAX`, where `v++` would overflow, are not modelled.
- Host.Engine.constructor: the engine's queue counters start at 0. Before `FindQueueFamilies` runs, the source leaves them uninitialised.

## Findings

| source | as written | input that shows it | evidently intended | confidence | as-written member | corrected member |
|---|---|---|---|---|---|---|
| src/vk/subsystem.cc:792-793 | `GetMemoryType` returns 0 when no memory type matches | `typeBits = 0` with one memory type: the result is 0, the same as for `typeBits = 1`, where type 0 does match | report "no suitable type" distinctly from index 0 | high, not executed | MemoryTypes.NoMatchAliasesTypeZero | MemoryTypes.FindMemoryType |
| engine.cpp:116-128 | `CreateComponentPipelines` sets up every pipeline whose `IsSetup()` is false, but `Setup` never marks a pipeline as set up (pipelines.h:46-52) | one pipeline needing one graphics queue, with four available, and two passes: it is set up twice, at start indices 0 and then 1, and two queues are charged | a pipeline is set up and charged once | high, not executed | Host.RepeatedPassRecharges | Host.Engine.CreateComponentPipelinesMarking |
| engine.cpp:104-105 | the available queue counters are `uint32_t` and are lowered with no check | charging one graphics queue with 4 as maximum and 0 available: the count wraps to 4294967295, and the next start index is 5, past the 4 queues | refuse a requirement that does not fit | high, not executed | QueueBudget.ChargeUnderflows | QueueBudget.Claim |
| vk_utils.cpp:238-246 | the preference loop's choice is overwritten by `formats[0]`; the subsystem's copy (src/vk/subsystem.cc:615-625, line 624) does the same | formats `[other, B8G8R8A8_UNORM/SRGB_NONLINEAR]`: the second format is preferred, but the first is returned | keep the loop's choice: the preferred format when it is offered, otherwise the first | high, not executed | Swapchain.PreferredFormatOverwritten | Swapchain.PreferredSurfaceFormat |
| src/vk/subsystem.cc:560-566 | the "dedicated compute" test uses `flags ^ eGraphics`, which is non-zero for any flags other than exactly `{graphics}` | a family with `{graphics, compute}` passes the test | accept only compute families without graphics | medium, not executed | QueueFamilies.ComputeTestAcceptsAnyComputeFamily | QueueFamilies.DedicatedComputeExcludesGraphics |
| pipelines/ui.cpp:465 | `AddButton` writes every quad at the start of the button buffer, not at the button's `startVertex` | two solid buttons on a fresh pipeline: the second owns vertices 6 to 11, but vertex 6 still holds the default vertex | write the quad at `startVertex` | high, not executed | UI.SecondButtonLeftBlank | UI.UIPipeline.AddButtonInPlace |
| pipelines/ui.cpp:428-429 | `RemoveLabel` re-adds each remaining label through `AddLabel`, which inserts it under a fresh random id into the `std::map` being iterated while the old entry stays; a copy filed above the iterator is visited again | one label under id 1, remove absent id 2, `std::rand()` yields 5 then 3: the label is re-added twice and filed under 1, 3 and 5 | keep each remaining label under its own id | high, not executed | UI.RemoveLabelRevisits | UI.UIPipeline.RemoveLabelKeepingIds |
| src/vk/subsystem.cc:401-408 | `checked_vector_add` searches a `std::vector<char const *>`, so `std::find` compares addresses, not texts | a debug build whose caller lists `VK_LAYER_KHRONOS_validation`: the caller's copy and the literal differ in address, so the layer is enabled twice | compare texts, as `createInstance` does (vk_utils.cpp:50-53) | high, not executed | Swapchain.CallerValidationLayerEnabledTwice | Swapchain.AddIfAbsent |
| include/log.h:150 | the precision loop accepts only digits strictly between `'0'` and `'9'` | `"%.9f"` gets no precision; `"%.10f"` gets precision 1 | accept `'0'` to `'9'` | high, not executed | Logging.PrecisionDigitsAsWritten | Logging.CorrectedPrecision |
| include/log.h:184-186 | when a specifier ends the string, the cleanup loop stops on the terminator and `++format` steps past it | `Log("%", x)`: the next scan starts beyond the end of the string | resume on the terminator | high, not executed | Logging.TrailingPercentAsWritten | Logging.NeverReadsPastEnd |
