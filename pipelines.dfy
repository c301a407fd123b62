/**
 * The pipeline template the engine drives: queue requirements, queue setup,
 * descriptor-set layouts, resource creation with descriptor bookkeeping, and
 * the descriptor writes issued when the pipeline is finalised. Device
 * objects (images, views, buffers, samplers, layouts, sets) are opaque
 * handles that the device hands back; they are parameters here.
 */
module Pipelines {
  import opened Common
  import opened MemoryTypes
  import opened QueueBudget

  /** Opaque device object handle. */
  type Handle = nat

  /** `INVALID_DESCRIPTOR_SET_ID`: the descriptor-set id meaning "bind nowhere". */
  const INVALID_DESCRIPTOR_SET_ID: u32 := U32_MAX

  datatype DescriptorType =
    | Sampler | CombinedImageSampler | SampledImage | StorageImage | UniformTexelBuffer
    | StorageTexelBuffer | UniformBuffer | StorageBuffer | UniformBufferDynamic
    | StorageBufferDynamic | InputAttachment

  /** `vk::DescriptorImageInfo`; a default one has no sampler, no view and layout 0 (undefined). */
  datatype ImageInfo = ImageInfo(sampler: Option<Handle>, view: Option<Handle>, layout: nat)
  /** `vk::DescriptorBufferInfo`; a default one has no buffer, offset 0 and range 0. */
  datatype BufferInfo = BufferInfo(buffer: Option<Handle>, offset: nat, range: nat)

  const NoImage: ImageInfo := ImageInfo(None, None, 0)
  const NoBuffer: BufferInfo := BufferInfo(None, 0, 0)

  /** One slot of a descriptor set: what is bound at `bindLoc`, or nothing when `bindLoc` is `UINT32_MAX`. */
  datatype DescriptorInfo = DescriptorInfo(dtype: DescriptorType, bindLoc: u32, buffer: BufferInfo, image: ImageInfo)

  /** A slot nothing was bound to. */
  const Unbound: DescriptorInfo := DescriptorInfo(Sampler, U32_MAX, NoBuffer, NoImage)

  /**
   * A device-memory allocation: the memory type index it was made with (the
   * first-fit index, or 0 when no type is suitable) and whether it is mapped.
   */
  datatype Allocation = Allocation(memoryType: nat, size: nat, mapped: bool)

  /** The queue a pipeline fetched: family and index within the family. */
  datatype QueueRef = QueueRef(family: u32, index: u32)

  /** `vk::WriteDescriptorSet` as the pipeline fills it in. */
  datatype DescriptorWrite = DescriptorWrite(dstSet: Handle, binding: u32, dtype: DescriptorType,
                                             image: Option<ImageInfo>, buffer: Option<BufferInfo>)

  /** Which pipeline class a pipeline object is. */
  datatype PipelineKind =
    | BaseKind
    | TemplateKind(graphicsQueueCount: u32, computeQueueCount: u32)

  /**
   * The queues a pipeline asks for: none for the bare base class, the two
   * template counts for an `EnginePipeline`.
   */
  function GetQueueRequirements(kind: PipelineKind): (r: QueueRequirements)
    ensures kind.BaseKind? ==> r.graphics == 0 && r.compute == 0
    ensures kind.TemplateKind? ==> r.graphics == kind.graphicsQueueCount && r.compute == kind.computeQueueCount
  {
    match kind
    case BaseKind => QueueRequirements(0, 0)
    case TemplateKind(g, c) => QueueRequirements(g, c)
  }

  /** Pool size of descriptor type `t`: 0 when the pool map has no entry for it. */
  function PoolCount(m: map<DescriptorType, nat>, t: DescriptorType): nat
  {
    if t in m then m[t] else 0
  }

  /** The pool sizes after counting one descriptor of each binding type in turn. */
  function CountBindings(m: map<DescriptorType, nat>, bindings: seq<DescriptorType>): (r: map<DescriptorType, nat>)
    ensures forall t :: t in m ==> t in r && m[t] <= r[t]
  {
    if bindings == [] then m
    else
      var before := CountBindings(m, bindings[..|bindings| - 1]);
      var t := bindings[|bindings| - 1];
      before[t := PoolCount(before, t) + 1]
  }

  /**
   * Adding a layout raises each descriptor type's pool size by the number
   * of bindings of that type, and creates entries only for types that occur.
   */
  lemma {:induction false} CountBindingsCounts(m: map<DescriptorType, nat>, bindings: seq<DescriptorType>, t: DescriptorType)
    ensures PoolCount(CountBindings(m, bindings), t) == PoolCount(m, t) + multiset(bindings)[t]
    ensures t in CountBindings(m, bindings) <==> t in m || t in bindings
    decreases |bindings|
  {
    if bindings != [] {
      var init := bindings[..|bindings| - 1];
      CountBindingsCounts(m, init, t);
      assert bindings == init + [bindings[|bindings| - 1]];
      assert multiset(bindings) == multiset(init) + multiset{bindings[|bindings| - 1]};
    }
  }

  /** Descriptor types whose write carries image information. */
  predicate IsImageType(t: DescriptorType)
  {
    t == CombinedImageSampler || t == StorageImage
  }

  /** The write issued for a bound slot of the set `dstSet`. */
  function WriteFor(dstSet: Handle, e: DescriptorInfo): (w: DescriptorWrite)
    ensures w.dstSet == dstSet && w.binding == e.bindLoc && w.dtype == e.dtype
    ensures w.image.Some? <==> IsImageType(e.dtype)
    ensures w.buffer.Some? <==> e.dtype == UniformBuffer
    ensures w.image.Some? ==> w.image.value == e.image
    ensures w.buffer.Some? ==> w.buffer.value == e.buffer
  {
    DescriptorWrite(dstSet, e.bindLoc, e.dtype,
                    if IsImageType(e.dtype) then Some(e.image) else None,
                    if e.dtype == UniformBuffer then Some(e.buffer) else None)
  }

  /** The writes for one set's slots, in slot order, skipping unbound slots. */
  function RowWrites(row: seq<DescriptorInfo>, dstSet: Handle): seq<DescriptorWrite>
  {
    if row == [] then []
    else
      var last := row[|row| - 1];
      RowWrites(row[..|row| - 1], dstSet) + (if last.bindLoc != U32_MAX then [WriteFor(dstSet, last)] else [])
  }

  /** The writes for every set, in set order. */
  function Writes(rows: seq<seq<DescriptorInfo>>, sets: seq<Handle>): seq<DescriptorWrite>
    requires |rows| <= |sets|
  {
    if rows == [] then [] else Writes(rows[..|rows| - 1], sets) + RowWrites(rows[|rows| - 1], sets[|rows| - 1])
  }

  lemma {:induction false} RowWritesExactly(row: seq<DescriptorInfo>, dstSet: Handle, w: DescriptorWrite)
    ensures w in RowWrites(row, dstSet) <==>
      exists k :: 0 <= k < |row| && row[k].bindLoc != U32_MAX && w == WriteFor(dstSet, row[k])
    decreases |row|
  {
    if row != [] {
      var init := row[..|row| - 1];
      RowWritesExactly(init, dstSet, w);
      if w in RowWrites(row, dstSet) && w !in RowWrites(init, dstSet) {
        var k := |row| - 1;
        assert row[k].bindLoc != U32_MAX && w == WriteFor(dstSet, row[k]);
      }
      if exists k :: 0 <= k < |row| && row[k].bindLoc != U32_MAX && w == WriteFor(dstSet, row[k]) {
        var k :| 0 <= k < |row| && row[k].bindLoc != U32_MAX && w == WriteFor(dstSet, row[k]);
        if k < |row| - 1 {
          assert init[k] == row[k];
        }
      }
    }
  }

  /** `w` is the write built from slot `k` of set `s`, and that slot is bound. */
  predicate WriteOfSlot(rows: seq<seq<DescriptorInfo>>, sets: seq<Handle>, w: DescriptorWrite, s: int, k: int)
  {
    && 0 <= s < |rows| && s < |sets| && 0 <= k < |rows[s]|
    && rows[s][k].bindLoc != U32_MAX && w == WriteFor(sets[s], rows[s][k])
  }

  lemma {:induction false} WritesSound(rows: seq<seq<DescriptorInfo>>, sets: seq<Handle>, w: DescriptorWrite)
    requires |rows| <= |sets| && w in Writes(rows, sets)
    ensures exists s, k :: WriteOfSlot(rows, sets, w, s, k)
    decreases |rows|
  {
    var n := |rows| - 1;
    if w in Writes(rows[..n], sets) {
      WritesSound(rows[..n], sets, w);
      var s, k :| WriteOfSlot(rows[..n], sets, w, s, k);
      assert WriteOfSlot(rows, sets, w, s, k);
    } else {
      RowWritesExactly(rows[n], sets[n], w);
      var k :| 0 <= k < |rows[n]| && rows[n][k].bindLoc != U32_MAX && w == WriteFor(sets[n], rows[n][k]);
      assert WriteOfSlot(rows, sets, w, n, k);
    }
  }

  lemma {:induction false} WritesComplete(rows: seq<seq<DescriptorInfo>>, sets: seq<Handle>, w: DescriptorWrite, s: int, k: int)
    requires |rows| <= |sets| && WriteOfSlot(rows, sets, w, s, k)
    ensures w in Writes(rows, sets)
    decreases |rows|
  {
    var n := |rows| - 1;
    if s < n {
      assert WriteOfSlot(rows[..n], sets, w, s, k);
      WritesComplete(rows[..n], sets, w, s, k);
    } else {
      RowWritesExactly(rows[n], sets[n], w);
    }
  }

  /**
   * The writes issued when a pipeline is finalised are exactly one write per
   * bound slot: a write belongs to the list if and only if some set has a
   * slot bound at a location other than `UINT32_MAX` from which it is built.
   */
  lemma WritesExactly(rows: seq<seq<DescriptorInfo>>, sets: seq<Handle>, w: DescriptorWrite)
    requires |rows| <= |sets|
    ensures w in Writes(rows, sets) <==> exists s, k :: WriteOfSlot(rows, sets, w, s, k)
  {
    if w in Writes(rows, sets) {
      WritesSound(rows, sets, w);
    }
    if exists s, k :: WriteOfSlot(rows, sets, w, s, k) {
      var s, k :| WriteOfSlot(rows, sets, w, s, k);
      WritesComplete(rows, sets, w, s, k);
    }
  }

  /** The descriptor-pool create info: one set per layout and the per-type pool sizes. */
  datatype PoolInfo = PoolInfo(maxSets: nat, sizes: map<DescriptorType, nat>)

  /**
   * `EnginePipeline<descriptor_set_count, image_count, buffer_count,
   * sampler_count, graphics_queue_count, compute_queue_count>`: a pipeline
   * with its queues and its descriptor bookkeeping.
   */
  class EnginePipeline {
    const descriptorSetCount: u32
    const imageCount: u32
    const bufferCount: u32
    const samplerCount: u32
    const graphicsQueueCount: u32
    const computeQueueCount: u32

    var memoryTypes: seq<PropertyFlags>
    var hasPreRenderStage: bool
    var setupComplete: bool

    var graphicsQueueFamilyIndex: u32
    var graphicsQueueStartIndex: u32
    const graphicsQueues: array<QueueRef>
    var graphicsCommandPoolCreated: bool
    var computeQueueFamilyIndex: u32
    var computeQueueStartIndex: u32

    var currentDescriptorSet: u32
    const descriptorSetLayouts: array<Option<Handle>>
    var descriptorPoolSizes: map<DescriptorType, nat>
    /** Row `s`, slot `b`: what set `s` binds in slot `b`. */
    const descriptorSetObjects: array2<DescriptorInfo>
    const images: array<Option<Handle>>
    var imageViews: seq<Handle>
    const bufferDescriptors: array<BufferInfo>
    const samplerDescriptors: array<ImageInfo>
    var devMemAllocs: seq<Allocation>
    var devMemBufferAllocs: seq<Allocation>

    /** Slots per descriptor set: `image_count + buffer_count + sampler_count`. */
    function SlotCount(): nat
      reads this
    {
      imageCount + bufferCount + samplerCount
    }

    ghost predicate Valid()
      reads this
    {
      && graphicsQueues.Length == graphicsQueueCount
      && descriptorSetLayouts.Length == descriptorSetCount
      && descriptorSetObjects.Length0 == descriptorSetCount
      && descriptorSetObjects.Length1 == SlotCount()
      && images.Length == imageCount
      && bufferDescriptors.Length == bufferCount + imageCount
      && samplerDescriptors.Length == samplerCount
      && images != descriptorSetLayouts
      && |memoryTypes| <= MAX_MEMORY_TYPES
    }

    /** The queue requirement this pipeline reports. */
    function Requirements(): (r: QueueRequirements)
      reads this
      ensures r == GetQueueRequirements(TemplateKind(graphicsQueueCount, computeQueueCount))
    {
      QueueRequirements(graphicsQueueCount, computeQueueCount)
    }

    /** The descriptor table, row by row. */
    ghost function Rows(): (rows: seq<seq<DescriptorInfo>>)
      reads this, descriptorSetObjects
      ensures |rows| == descriptorSetObjects.Length0
      ensures forall s :: 0 <= s < |rows| ==> |rows[s]| == descriptorSetObjects.Length1
    {
      seq(descriptorSetObjects.Length0, s requires 0 <= s < descriptorSetObjects.Length0 reads descriptorSetObjects =>
        seq(descriptorSetObjects.Length1, b requires 0 <= b < descriptorSetObjects.Length1 reads descriptorSetObjects =>
          descriptorSetObjects[s, b]))
    }

    /** A fresh pipeline: nothing set up, nothing created, every slot unbound. */
    constructor (descriptorSets: u32, imageCount: u32, bufferCount: u32, samplerCount: u32,
                 graphicsQueues: u32, computeQueues: u32)
      requires imageCount + bufferCount + samplerCount < U32_LIMIT
      ensures Valid()
      ensures this.descriptorSetCount == descriptorSets && this.imageCount == imageCount
      ensures this.bufferCount == bufferCount && this.samplerCount == samplerCount
      ensures graphicsQueueCount == graphicsQueues && computeQueueCount == computeQueues
      ensures !setupComplete && !hasPreRenderStage && currentDescriptorSet == 0
      ensures descriptorPoolSizes == map[] && imageViews == [] && devMemAllocs == [] && devMemBufferAllocs == []
      ensures forall s, b :: 0 <= s < descriptorSets && 0 <= b < SlotCount() ==> descriptorSetObjects[s, b] == Unbound
    {
      descriptorSetCount := descriptorSets;
      this.imageCount := imageCount;
      this.bufferCount := bufferCount;
      this.samplerCount := samplerCount;
      graphicsQueueCount := graphicsQueues;
      computeQueueCount := computeQueues;
      memoryTypes := [];
      hasPreRenderStage := false;
      setupComplete := false;
      graphicsQueueFamilyIndex := 0;
      graphicsQueueStartIndex := 0;
      this.graphicsQueues := new QueueRef[graphicsQueues](_ => QueueRef(0, 0));
      graphicsCommandPoolCreated := false;
      computeQueueFamilyIndex := 0;
      computeQueueStartIndex := 0;
      currentDescriptorSet := 0;
      descriptorSetLayouts := new Option<Handle>[descriptorSets](_ => None);
      descriptorPoolSizes := map[];
      descriptorSetObjects := new DescriptorInfo[descriptorSets, imageCount + bufferCount + samplerCount]((_, _) => Unbound);
      images := new Option<Handle>[imageCount](_ => None);
      imageViews := [];
      bufferDescriptors := new BufferInfo[bufferCount + imageCount](_ => NoBuffer);
      samplerDescriptors := new ImageInfo[samplerCount](_ => NoImage);
      devMemAllocs := [];
      devMemBufferAllocs := [];
    }

    /** Fetches queue `start + i` of the graphics family for each of the pipeline's graphics queues. */
    method CreateGraphicsQueues()
      requires Valid()
      modifies graphicsQueues
      ensures forall i :: 0 <= i < graphicsQueueCount ==>
        graphicsQueues[i] == QueueRef(graphicsQueueFamilyIndex, Add32(graphicsQueueStartIndex, i))
    {
      var i := 0;
      while i < graphicsQueueCount
        invariant 0 <= i <= graphicsQueueCount
        invariant forall j :: 0 <= j < i ==>
          graphicsQueues[j] == QueueRef(graphicsQueueFamilyIndex, Add32(graphicsQueueStartIndex, j))
      {
        graphicsQueues[i] := QueueRef(graphicsQueueFamilyIndex, Add32(graphicsQueueStartIndex, i));
        i := i + 1;
      }
    }

    /**
     * `Setup`: with graphics queues, stores the graphics family and start
     * index, fetches the queues and creates the graphics command pool; with
     * compute queues, stores the compute family and start index only; then
     * stores the memory properties. It never marks the pipeline as set up.
     */
    method Setup(memTypes: seq<PropertyFlags>, graphicsFamily: u32, computeFamily: u32,
                 graphicsStart: u32, computeStart: u32)
      requires Valid() && |memTypes| <= MAX_MEMORY_TYPES
      modifies this`graphicsQueueFamilyIndex, this`graphicsQueueStartIndex, this`graphicsCommandPoolCreated,
               this`computeQueueFamilyIndex, this`computeQueueStartIndex, this`memoryTypes, graphicsQueues
      ensures Valid() && memoryTypes == memTypes
      ensures graphicsQueueCount > 0 ==>
                graphicsQueueFamilyIndex == graphicsFamily && graphicsQueueStartIndex == graphicsStart
                && graphicsCommandPoolCreated
                && forall i :: 0 <= i < graphicsQueueCount ==> graphicsQueues[i] == QueueRef(graphicsFamily, Add32(graphicsStart, i))
      ensures graphicsQueueCount == 0 ==>
                graphicsQueueFamilyIndex == old(graphicsQueueFamilyIndex) && graphicsQueueStartIndex == old(graphicsQueueStartIndex)
                && graphicsCommandPoolCreated == old(graphicsCommandPoolCreated)
      ensures computeQueueCount > 0 ==> computeQueueFamilyIndex == computeFamily && computeQueueStartIndex == computeStart
      ensures computeQueueCount == 0 ==>
                computeQueueFamilyIndex == old(computeQueueFamilyIndex) && computeQueueStartIndex == old(computeQueueStartIndex)
    {
      if graphicsQueueCount > 0 {
        graphicsQueueFamilyIndex := graphicsFamily;
        graphicsQueueStartIndex := graphicsStart;
        CreateGraphicsQueues();
        graphicsCommandPoolCreated := true;
      }
      if computeQueueCount > 0 {
        computeQueueFamilyIndex := computeFamily;
        computeQueueStartIndex := computeStart;
      }
      memoryTypes := memTypes;
    }

    /**
     * Registers a descriptor-set layout under the next set id (0, 1, 2, …)
     * and counts its bindings into the pool sizes per descriptor type.
     */
    method AddDescriptorLayoutSets(layout: Handle, bindings: seq<DescriptorType>) returns (setID: u32)
      requires Valid() && currentDescriptorSet < descriptorSetCount
      modifies this`currentDescriptorSet, this`descriptorPoolSizes, descriptorSetLayouts
      ensures Valid()
      ensures setID == old(currentDescriptorSet) && currentDescriptorSet == setID + 1
      ensures descriptorSetLayouts[setID] == Some(layout)
      ensures forall s :: 0 <= s < descriptorSetLayouts.Length && s != setID ==>
        descriptorSetLayouts[s] == old(descriptorSetLayouts[s])
      ensures descriptorPoolSizes == CountBindings(old(descriptorPoolSizes), bindings)
    {
      setID := currentDescriptorSet;
      currentDescriptorSet := currentDescriptorSet + 1;
      descriptorSetLayouts[setID] := Some(layout);
      var sizes := descriptorPoolSizes;
      var i := 0;
      while i < |bindings|
        invariant 0 <= i <= |bindings|
        invariant sizes == CountBindings(old(descriptorPoolSizes), bindings[..i])
      {
        assert bindings[..i + 1][..i] == bindings[..i];
        var t := bindings[i];
        sizes := sizes[t := PoolCount(sizes, t) + 1];
        i := i + 1;
      }
      assert bindings[..i] == bindings;
      descriptorPoolSizes := sizes;
    }

    /** The table's set ids are in range and the binding location names a slot. */
    predicate BindableIn(bindingLocation: u32, descSetIDs: seq<u32>)
      reads this
    {
      && |descSetIDs| > 0
      && (descSetIDs[0] != INVALID_DESCRIPTOR_SET_ID ==>
            bindingLocation < SlotCount() && forall k :: 0 <= k < |descSetIDs| ==> descSetIDs[k] < descriptorSetCount)
    }

    /** Puts `entry` into slot `bindingLocation` of every listed set. */
    method BindInSets(bindingLocation: u32, descSetIDs: seq<u32>, entry: DescriptorInfo)
      requires Valid() && bindingLocation < SlotCount()
      requires forall k :: 0 <= k < |descSetIDs| ==> descSetIDs[k] < descriptorSetCount
      modifies descriptorSetObjects
      ensures forall s, b :: 0 <= s < descriptorSetObjects.Length0 && 0 <= b < descriptorSetObjects.Length1 ==>
        descriptorSetObjects[s, b] ==
          if b == bindingLocation && s in descSetIDs then entry else old(descriptorSetObjects[s, b])
    {
      var k := 0;
      while k < |descSetIDs|
        invariant 0 <= k <= |descSetIDs|
        invariant forall s, b :: 0 <= s < descriptorSetObjects.Length0 && 0 <= b < descriptorSetObjects.Length1 ==>
          descriptorSetObjects[s, b] ==
            if b == bindingLocation && s in descSetIDs[..k] then entry else old(descriptorSetObjects[s, b])
      {
        assert descSetIDs[..k + 1] == descSetIDs[..k] + [descSetIDs[k]];
        descriptorSetObjects[descSetIDs[k], bindingLocation] := entry;
        k := k + 1;
      }
      assert descSetIDs[..k] == descSetIDs;
    }

    /**
     * Creates an image: records it under `imageID`, allocates device-local
     * memory for it, appends its view and, unless the first set id is the
     * invalid one, binds it in every listed set as a combined image sampler
     * (with a sampler) or a storage image (without).
     */
    method CreateNewImage(imageID: u32, bindingLocation: u32, descSetIDs: seq<u32>, image: Handle, view: Handle,
                          memoryTypeBits: u32, memorySize: nat, finalLayout: nat, sampler: Option<Handle>)
      returns (imageView: Handle)
      requires Valid() && imageID < imageCount && BindableIn(bindingLocation, descSetIDs)
      modifies this`devMemAllocs, this`imageViews, images, descriptorSetObjects
      ensures Valid() && imageView == view
      ensures images[imageID] == Some(image)
      ensures forall i :: 0 <= i < images.Length && i != imageID ==> images[i] == old(images[i])
      ensures devMemAllocs == old(devMemAllocs) + [Allocation(MemoryTypeIndex(memoryTypeBits, memoryTypes, {DeviceLocal}), memorySize, false)]
      ensures imageViews == old(imageViews) + [view]
      ensures forall s, b :: 0 <= s < descriptorSetObjects.Length0 && 0 <= b < descriptorSetObjects.Length1 ==>
        descriptorSetObjects[s, b] ==
          if descSetIDs[0] != INVALID_DESCRIPTOR_SET_ID && b == bindingLocation && s in descSetIDs
          then DescriptorInfo(if sampler.Some? then CombinedImageSampler else StorageImage, bindingLocation,
                              NoBuffer, ImageInfo(sampler, Some(view), finalLayout))
          else old(descriptorSetObjects[s, b])
    {
      images[imageID] := Some(image);
      devMemAllocs := devMemAllocs + [Allocation(MemoryTypeIndex(memoryTypeBits, memoryTypes, {DeviceLocal}), memorySize, false)];
      imageViews := imageViews + [view];
      if descSetIDs[0] != INVALID_DESCRIPTOR_SET_ID {
        var dtype := if sampler.Some? then CombinedImageSampler else StorageImage;
        BindInSets(bindingLocation, descSetIDs, DescriptorInfo(dtype, bindingLocation, NoBuffer, ImageInfo(sampler, Some(view), finalLayout)));
      }
      imageView := view;
    }

    /** The single-set form of `CreateNewImage`; the sampler defaults to none. */
    method CreateNewImageInSet(imageID: u32, bindingLocation: u32, descSetID: u32, image: Handle, view: Handle,
                               memoryTypeBits: u32, memorySize: nat, finalLayout: nat, sampler: Option<Handle>)
      returns (imageView: Handle)
      requires Valid() && imageID < imageCount && BindableIn(bindingLocation, [descSetID])
      modifies this`devMemAllocs, this`imageViews, images, descriptorSetObjects
      ensures Valid() && imageView == view && images[imageID] == Some(image)
      ensures imageViews == old(imageViews) + [view]
      ensures forall s, b :: 0 <= s < descriptorSetObjects.Length0 && 0 <= b < descriptorSetObjects.Length1 ==>
        descriptorSetObjects[s, b] ==
          if descSetID != INVALID_DESCRIPTOR_SET_ID && b == bindingLocation && s == descSetID
          then DescriptorInfo(if sampler.Some? then CombinedImageSampler else StorageImage, bindingLocation,
                              NoBuffer, ImageInfo(sampler, Some(view), finalLayout))
          else old(descriptorSetObjects[s, b])
    {
      imageView := CreateNewImage(imageID, bindingLocation, [descSetID], image, view, memoryTypeBits, memorySize, finalLayout, sampler);
    }

    /**
     * Creates a buffer: allocates memory with the requested properties,
     * maps it exactly when the properties include host visibility, records
     * the buffer descriptor over the whole allocation and, unless the first
     * set id is the invalid one, binds it in every listed set as a uniform
     * buffer whose range is the requested buffer size. Returns the buffer
     * and whether its memory was mapped.
     */
    method CreateNewBuffer(bufferID: u32, bindingLocation: u32, descSetIDs: seq<u32>, buffer: Handle,
                           bufferSize: nat, memoryTypeBits: u32, memorySize: nat, memProps: PropertyFlags)
      returns (created: Handle, mapped: bool)
      requires Valid() && bufferID < bufferCount + imageCount && BindableIn(bindingLocation, descSetIDs)
      modifies this`devMemBufferAllocs, bufferDescriptors, descriptorSetObjects
      ensures Valid() && created == buffer
      ensures mapped <==> HostVisible in memProps
      ensures devMemBufferAllocs == old(devMemBufferAllocs) + [Allocation(MemoryTypeIndex(memoryTypeBits, memoryTypes, memProps), memorySize, mapped)]
      ensures bufferDescriptors[bufferID] == BufferInfo(Some(buffer), 0, memorySize)
      ensures forall i :: 0 <= i < bufferDescriptors.Length && i != bufferID ==> bufferDescriptors[i] == old(bufferDescriptors[i])
      ensures forall s, b :: 0 <= s < descriptorSetObjects.Length0 && 0 <= b < descriptorSetObjects.Length1 ==>
        descriptorSetObjects[s, b] ==
          if descSetIDs[0] != INVALID_DESCRIPTOR_SET_ID && b == bindingLocation && s in descSetIDs
          then DescriptorInfo(UniformBuffer, bindingLocation, BufferInfo(Some(buffer), 0, bufferSize), NoImage)
          else old(descriptorSetObjects[s, b])
    {
      mapped := HostVisible in memProps;
      devMemBufferAllocs := devMemBufferAllocs + [Allocation(MemoryTypeIndex(memoryTypeBits, memoryTypes, memProps), memorySize, mapped)];
      bufferDescriptors[bufferID] := BufferInfo(Some(buffer), 0, memorySize);
      if descSetIDs[0] != INVALID_DESCRIPTOR_SET_ID {
        BindInSets(bindingLocation, descSetIDs, DescriptorInfo(UniformBuffer, bindingLocation, BufferInfo(Some(buffer), 0, bufferSize), NoImage));
      }
      created := buffer;
    }

    /** The single-set form of `CreateNewBuffer`. */
    method CreateNewBufferInSet(bufferID: u32, bindingLocation: u32, descSetID: u32, buffer: Handle,
                                bufferSize: nat, memoryTypeBits: u32, memorySize: nat, memProps: PropertyFlags)
      returns (created: Handle, mapped: bool)
      requires Valid() && bufferID < bufferCount + imageCount && BindableIn(bindingLocation, [descSetID])
      modifies this`devMemBufferAllocs, bufferDescriptors, descriptorSetObjects
      ensures Valid() && created == buffer && (mapped <==> HostVisible in memProps)
      ensures bufferDescriptors[bufferID] == BufferInfo(Some(buffer), 0, memorySize)
      ensures forall s, b :: 0 <= s < descriptorSetObjects.Length0 && 0 <= b < descriptorSetObjects.Length1 ==>
        descriptorSetObjects[s, b] ==
          if descSetID != INVALID_DESCRIPTOR_SET_ID && b == bindingLocation && s == descSetID
          then DescriptorInfo(UniformBuffer, bindingLocation, BufferInfo(Some(buffer), 0, bufferSize), NoImage)
          else old(descriptorSetObjects[s, b])
    {
      created, mapped := CreateNewBuffer(bufferID, bindingLocation, [descSetID], buffer, bufferSize, memoryTypeBits, memorySize, memProps);
    }

    /** The unbound form of `CreateNewBuffer`: the buffer is bound in no descriptor set. */
    method CreateNewBufferUnbound(bufferID: u32, buffer: Handle, bufferSize: nat, memoryTypeBits: u32,
                                  memorySize: nat, memProps: PropertyFlags)
      returns (created: Handle, mapped: bool)
      requires Valid() && bufferID < bufferCount + imageCount
      modifies this`devMemBufferAllocs, bufferDescriptors, descriptorSetObjects
      ensures Valid() && created == buffer && (mapped <==> HostVisible in memProps)
      ensures bufferDescriptors[bufferID] == BufferInfo(Some(buffer), 0, memorySize)
      ensures forall s, b :: 0 <= s < descriptorSetObjects.Length0 && 0 <= b < descriptorSetObjects.Length1 ==>
        descriptorSetObjects[s, b] == old(descriptorSetObjects[s, b])
    {
      created, mapped := CreateNewBuffer(bufferID, U32_MAX, [INVALID_DESCRIPTOR_SET_ID], buffer, bufferSize, memoryTypeBits, memorySize, memProps);
    }

    /**
     * Creates a sampler: records it under `samplerID` and, unless the first
     * set id is the invalid one, binds it in every listed set as a combined
     * image sampler carrying only the sampler.
     */
    method CreateNewSampler(samplerID: u32, bindingLocation: u32, descSetIDs: seq<u32>, sampler: Handle)
      returns (created: Handle)
      requires Valid() && samplerID < samplerCount && BindableIn(bindingLocation, descSetIDs)
      modifies samplerDescriptors, descriptorSetObjects
      ensures created == sampler
      ensures samplerDescriptors[samplerID] == ImageInfo(Some(sampler), None, 0)
      ensures forall i :: 0 <= i < samplerDescriptors.Length && i != samplerID ==> samplerDescriptors[i] == old(samplerDescriptors[i])
      ensures forall s, b :: 0 <= s < descriptorSetObjects.Length0 && 0 <= b < descriptorSetObjects.Length1 ==>
        descriptorSetObjects[s, b] ==
          if descSetIDs[0] != INVALID_DESCRIPTOR_SET_ID && b == bindingLocation && s in descSetIDs
          then DescriptorInfo(CombinedImageSampler, bindingLocation, NoBuffer, ImageInfo(Some(sampler), None, 0))
          else old(descriptorSetObjects[s, b])
    {
      samplerDescriptors[samplerID] := ImageInfo(Some(sampler), None, 0);
      if descSetIDs[0] != INVALID_DESCRIPTOR_SET_ID {
        BindInSets(bindingLocation, descSetIDs, DescriptorInfo(CombinedImageSampler, bindingLocation, NoBuffer, ImageInfo(Some(sampler), None, 0)));
      }
      created := sampler;
    }

    /** The single-set form of `CreateNewSampler`. */
    method CreateNewSamplerInSet(samplerID: u32, bindingLocation: u32, descSetID: u32, sampler: Handle)
      returns (created: Handle)
      requires Valid() && samplerID < samplerCount && BindableIn(bindingLocation, [descSetID])
      modifies samplerDescriptors, descriptorSetObjects
      ensures created == sampler && samplerDescriptors[samplerID] == ImageInfo(Some(sampler), None, 0)
      ensures forall s, b :: 0 <= s < descriptorSetObjects.Length0 && 0 <= b < descriptorSetObjects.Length1 ==>
        descriptorSetObjects[s, b] ==
          if descSetID != INVALID_DESCRIPTOR_SET_ID && b == bindingLocation && s == descSetID
          then DescriptorInfo(CombinedImageSampler, bindingLocation, NoBuffer, ImageInfo(Some(sampler), None, 0))
          else old(descriptorSetObjects[s, b])
    {
      created := CreateNewSampler(samplerID, bindingLocation, [descSetID], sampler);
    }

    /** The unbound form of `CreateNewSampler`: the sampler is bound in no descriptor set. */
    method CreateNewSamplerUnbound(samplerID: u32, sampler: Handle) returns (created: Handle)
      requires Valid() && samplerID < samplerCount
      modifies samplerDescriptors, descriptorSetObjects
      ensures created == sampler && samplerDescriptors[samplerID] == ImageInfo(Some(sampler), None, 0)
      ensures forall s, b :: 0 <= s < descriptorSetObjects.Length0 && 0 <= b < descriptorSetObjects.Length1 ==>
        descriptorSetObjects[s, b] == old(descriptorSetObjects[s, b])
    {
      created := CreateNewSampler(samplerID, U32_MAX, [INVALID_DESCRIPTOR_SET_ID], sampler);
    }

    /**
     * Finalises the descriptors: the pool holds one set per layout and the
     * counted pool sizes, and one write is issued for every bound slot of
     * every set, set by set and slot by slot, into the allocated set
     * `sets[s]`.
     */
    method SetupPipeline(sets: seq<Handle>) returns (pool: PoolInfo, writes: seq<DescriptorWrite>)
      requires Valid() && |sets| == descriptorSetCount
      ensures pool == PoolInfo(descriptorSetCount, descriptorPoolSizes)
      ensures writes == Writes(Rows(), sets)
    {
      pool := PoolInfo(descriptorSetCount, descriptorPoolSizes);
      writes := [];
      ghost var rows := Rows();
      var s := 0;
      while s < descriptorSetCount
        invariant 0 <= s <= descriptorSetCount
        invariant writes == Writes(rows[..s], sets)
      {
        var row := SetWrites(s, sets[s]);
        assert rows[..s + 1][..s] == rows[..s];
        writes := writes + row;
        s := s + 1;
      }
      assert rows[..s] == rows;
    }

    /** The writes for the bound slots of set `s`, in slot order. */
    method SetWrites(s: nat, dstSet: Handle) returns (writes: seq<DescriptorWrite>)
      requires Valid() && s < descriptorSetCount
      ensures writes == RowWrites(Rows()[s], dstSet)
    {
      ghost var row := Rows()[s];
      writes := [];
      var b := 0;
      while b < SlotCount()
        invariant 0 <= b <= SlotCount()
        invariant writes == RowWrites(row[..b], dstSet)
      {
        var entry := descriptorSetObjects[s, b];
        assert row[..b + 1][..b] == row[..b];
        assert row[..b + 1][b] == entry;
        if entry.bindLoc != U32_MAX {
          writes := writes + [WriteFor(dstSet, entry)];
        }
        b := b + 1;
      }
      assert row[..b] == row;
    }

    /** The writes over all rows are exactly one per bound slot of every set. */
    lemma WritesCoverBoundSlots(sets: seq<Handle>)
      requires Valid() && |sets| == descriptorSetCount
      ensures forall w :: w in Writes(Rows(), sets) <==>
        exists s, b :: 0 <= s < descriptorSetCount && 0 <= b < SlotCount() && descriptorSetObjects[s, b].bindLoc != U32_MAX
                       && w == WriteFor(sets[s], descriptorSetObjects[s, b])
    {
      var rows := Rows();
      forall w ensures w in Writes(rows, sets) <==>
        exists s, b :: 0 <= s < descriptorSetCount && 0 <= b < SlotCount() && descriptorSetObjects[s, b].bindLoc != U32_MAX
                       && w == WriteFor(sets[s], descriptorSetObjects[s, b])
      {
        WritesExactly(rows, sets, w);
        if w in Writes(rows, sets) {
          var s, b :| WriteOfSlot(rows, sets, w, s, b);
          assert rows[s][b] == descriptorSetObjects[s, b];
        }
        if exists s, b :: 0 <= s < descriptorSetCount && 0 <= b < SlotCount() && descriptorSetObjects[s, b].bindLoc != U32_MAX
                          && w == WriteFor(sets[s], descriptorSetObjects[s, b]) {
          var s, b :| 0 <= s < descriptorSetCount && 0 <= b < SlotCount() && descriptorSetObjects[s, b].bindLoc != U32_MAX
                      && w == WriteFor(sets[s], descriptorSetObjects[s, b]);
          assert rows[s][b] == descriptorSetObjects[s, b];
          assert WriteOfSlot(rows, sets, w, s, b);
        }
      }
    }
  }
}
