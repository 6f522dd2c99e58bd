/** The submission bookkeeping of the GPU device (`Gpu` in `nari-gpu/src/device.rs`): command
    pools cycling through recording and execution on one timeline, the per-pool "shrines" of
    resources whose destruction waits until the GPU is done with that pool, and the caches of
    image descriptors and pipeline layouts. Vulkan objects are numbered handles; those the
    driver creates are taken from a counter, and destroying a resource appends it to a log. */
module Device {
  import opened Wrappers
  import GpuTypes
  import Descriptor

  /** `PoolState`. Timestamps are `u64` values of the timeline semaphore. */
  datatype PoolState = Free | Recording | Executing(t: nat)

  /** `Shrine`: memory allocations and Vulkan objects waiting for their pool to finish. */
  datatype Shrine = Shrine(allocations: seq<nat>, buffers: seq<nat>, images: seq<nat>, imageViews: seq<nat>)

  const EmptyShrine := Shrine([], [], [], [])

  datatype PoolData = PoolData(state: PoolState, cmdPool: nat, cmdBuffer: nat, shrine: Shrine)

  /** `Pool`: the handle given out by `acquire_pool`; `id` indexes `pools`. */
  datatype Pool = Pool(cmdBuffer: nat, id: nat)

  /** A destroyed Vulkan object or a freed allocation. */
  datatype Resource = BufferObject(id: nat) | ImageObject(id: nat) | ImageViewObject(id: nat) | Allocation(id: nat)

  /** The index of the first pool in state `s`, or `|ps|` when there is none
      (`iter().position(..)` and the find-first loops of `retire_*`). */
  function FirstInState(ps: seq<PoolData>, s: PoolState): (i: nat)
    ensures i <= |ps|
    ensures i < |ps| ==> ps[i].state == s
    ensures forall j :: 0 <= j < i ==> ps[j].state != s
  {
    if ps == [] then 0
    else if ps[0].state == s then 0
    else 1 + FirstInState(ps[1..], s)
  }

  /** The pools `wait(t)` drains: those executing work the GPU has finished by `t`. */
  predicate Due(p: PoolData, t: nat)
  {
    p.state.Executing? && p.state.t <= t
  }

  function Drain(p: PoolData, t: nat): PoolData
  {
    if Due(p, t) then p.(shrine := EmptyShrine) else p
  }

  /** What draining `sh` destroys, in the order `wait` does it: image views, buffers, images,
      then the allocations. */
  function Destroys(sh: Shrine): seq<Resource>
  {
    seq(|sh.imageViews|, i requires 0 <= i < |sh.imageViews| => ImageViewObject(sh.imageViews[i]))
    + seq(|sh.buffers|, i requires 0 <= i < |sh.buffers| => BufferObject(sh.buffers[i]))
    + seq(|sh.images|, i requires 0 <= i < |sh.images| => ImageObject(sh.images[i]))
    + seq(|sh.allocations|, i requires 0 <= i < |sh.allocations| => Allocation(sh.allocations[i]))
  }

  /** What `wait(t)` destroys, pool by pool. */
  function DrainLog(ps: seq<PoolData>, t: nat): seq<Resource>
  {
    if ps == [] then []
    else DrainLog(ps[..|ps| - 1], t) + (if Due(ps[|ps| - 1], t) then Destroys(ps[|ps| - 1].shrine) else [])
  }

  /** Everything `wait(t)` destroys was in the shrine of a due pool, and everything in such a
      shrine is destroyed. */
  lemma {:induction false} DrainLogComplete(ps: seq<PoolData>, t: nat, r: Resource)
    ensures r in DrainLog(ps, t) <==> exists i :: 0 <= i < |ps| && Due(ps[i], t) && r in Destroys(ps[i].shrine)
  {
    if ps != [] {
      var init := ps[..|ps| - 1];
      DrainLogComplete(init, t, r);
      if r in DrainLog(ps, t) && r !in DrainLog(init, t) {
        assert Due(ps[|ps| - 1], t) && r in Destroys(ps[|ps| - 1].shrine);
      }
      if exists i :: 0 <= i < |ps| && Due(ps[i], t) && r in Destroys(ps[i].shrine) {
        var i :| 0 <= i < |ps| && Due(ps[i], t) && r in Destroys(ps[i].shrine);
        if i < |ps| - 1 {
          assert init[i] == ps[i];
        }
      }
    }
  }

  function PushConstantRanges(size: nat): (r: seq<nat>)
    ensures |r| <= 1 && (r == [] <==> size == 0) && (r != [] ==> r[0] == size)
  {
    if size > 0 then [size] else []
  }

  predicate Distinct(s: seq<nat>)
  {
    forall a, b :: 0 <= a < b < |s| ==> s[a] != s[b]
  }

  /** Every executing pool runs a submission made by `timeline`, and no two pools run the
      same one. */
  predicate PoolsValid(ps: seq<PoolData>, timeline: nat)
  {
    && (forall i :: 0 <= i < |ps| && ps[i].state.Executing? ==> 1 <= ps[i].state.t <= timeline)
    && (forall i, j :: 0 <= i < j < |ps| && ps[i].state.Executing? ==> ps[i].state != ps[j].state)
  }

  /** Changing only what the pools hold, not their states, keeps them valid. */
  lemma SameStatesKeepValid(ps: seq<PoolData>, qs: seq<PoolData>, timeline: nat)
    requires PoolsValid(ps, timeline) && |qs| == |ps|
    requires forall i :: 0 <= i < |ps| ==> qs[i].state == ps[i].state
    ensures PoolsValid(qs, timeline)
  {
  }

  class Gpu {
    var pools: seq<PoolData>
    var timelineValue: nat
    /** Objects destroyed and allocations freed, in order. */
    var destroyed: seq<Resource>
    /** The next handle the driver hands out. */
    var nextHandle: nat

    const descriptorsSampledImage: Descriptor.Descriptors
    const descriptorsStorageImage: Descriptor.Descriptors
    var addressesSampledImage: map<(nat, nat), nat>
    var addressesStorageImage: map<nat, nat>
    /** `layouts`: push-constant size to pipeline layout. */
    var layouts: map<nat, nat>
    /** The push-constant sizes of the pipeline layouts created, in order. */
    var layoutsCreated: seq<nat>

    /** Every executing pool runs a submission already made, no two pools run the same one,
        every layout was created once for its size, and each image view has its own storage
        descriptor. */
    ghost predicate Valid()
      reads this, descriptorsSampledImage, descriptorsStorageImage, descriptorsSampledImage.cpu, descriptorsStorageImage.cpu
    {
      && PoolsValid(pools, timelineValue)
      && Distinct(layoutsCreated) && (forall s :: s in layouts <==> s in layoutsCreated)
      && (forall s :: s in layouts ==> layouts[s] < nextHandle)
      && descriptorsSampledImage != descriptorsStorageImage
      && descriptorsSampledImage.cpu != descriptorsStorageImage.cpu
      && descriptorsSampledImage.Valid() && descriptorsStorageImage.Valid()
      && (forall v :: v in addressesStorageImage ==> addressesStorageImage[v] in descriptorsStorageImage.issued)
      && (forall v, w :: v in addressesStorageImage && w in addressesStorageImage && v != w ==>
            addressesStorageImage[v] != addressesStorageImage[w])
      && (forall k :: k in addressesSampledImage ==> addressesSampledImage[k] in descriptorsSampledImage.issued)
    }

    /** The caches the pool operations leave alone. */
    function Caches(): (map<(nat, nat), nat>, map<nat, nat>, map<nat, nat>, seq<nat>)
      reads this
    {
      (addressesSampledImage, addressesStorageImage, layouts, layoutsCreated)
    }

    /** The bookkeeping of `Gpu::new`: no pools, timeline at 0, empty caches, and descriptor
        heaps of the given sizes. */
    constructor (sampledImages: nat, storageImages: nat)
      ensures Valid()
      ensures pools == [] && timelineValue == 0 && destroyed == [] && layouts == map[] && layoutsCreated == []
      ensures addressesSampledImage == map[] && addressesStorageImage == map[]
      ensures fresh(descriptorsSampledImage) && fresh(descriptorsStorageImage)
      ensures fresh(descriptorsSampledImage.cpu) && fresh(descriptorsStorageImage.cpu)
    {
      pools := [];
      timelineValue := 0;
      destroyed := [];
      nextHandle := 0;
      descriptorsSampledImage := new Descriptor.Descriptors(sampledImages);
      descriptorsStorageImage := new Descriptor.Descriptors(storageImages);
      addressesSampledImage := map[];
      addressesStorageImage := map[];
      layouts := map[];
      layoutsCreated := [];
    }

    /** The find-first loop over `pools`. */
    method FindPool(s: PoolState) returns (i: nat)
      ensures i == FirstInState(pools, s)
    {
      i := 0;
      while i < |pools|
        invariant i <= |pools|
        invariant forall j :: 0 <= j < i ==> pools[j].state != s
        invariant FirstInState(pools, s) >= i
      {
        if pools[i].state == s {
          return;
        }
        FirstInStateSkip(pools, s, i);
        i := i + 1;
      }
    }

    /** `acquire_pool`: the first free pool, or else a new pool appended, starts recording. */
    method AcquirePool() returns (pool: Pool)
      requires Valid()
      modifies this
      ensures Valid()
      ensures var i := FirstInState(old(pools), Free);
        && pool.id == i
        && (i < |old(pools)| ==> pools == old(pools)[i := old(pools)[i].(state := Recording)] && nextHandle == old(nextHandle))
        && (i == |old(pools)| ==>
              && pools == old(pools) + [PoolData(Recording, old(nextHandle), old(nextHandle) + 1, EmptyShrine)]
              && nextHandle == old(nextHandle) + 2)
        && pool.cmdBuffer == pools[i].cmdBuffer
      ensures timelineValue == old(timelineValue) && destroyed == old(destroyed) && Caches() == old(Caches())
    {
      var id := FindPool(Free);
      if id == |pools| {
        var cmdPool := nextHandle;
        var cmdBuffer := nextHandle + 1;
        nextHandle := nextHandle + 2;
        pools := pools + [PoolData(Free, cmdPool, cmdBuffer, EmptyShrine)];
      }
      pools := pools[id := pools[id].(state := Recording)];
      pool := Pool(pools[id].cmdBuffer, id);
    }

    /** `submit_pool`: the timeline advances by one and the pool executes under the new value,
        which is returned. */
    method SubmitPool(pool: Pool) returns (t: nat)
      requires Valid() && pool.id < |pools|
      modifies this
      ensures Valid()
      ensures timelineValue == old(timelineValue) + 1 && t == timelineValue
      ensures pools == old(pools)[pool.id := old(pools)[pool.id].(state := Executing(t))]
      ensures destroyed == old(destroyed) && nextHandle == old(nextHandle) && Caches() == old(Caches())
    {
      timelineValue := timelineValue + 1;
      pools := pools[pool.id := pools[pool.id].(state := Executing(timelineValue))];
      t := timelineValue;
    }

    /** `retire_buffer`: parked in the shrine of the pool running the latest submission, or
        destroyed at once when there is none (nothing submitted yet, or that pool was reused). */
    method RetireBuffer(buffer: GpuTypes.Buffer)
      requires Valid()
      modifies this
      ensures Valid()
      ensures var i := FirstInState(old(pools), Executing(timelineValue));
        && (i < |old(pools)| ==>
              var sh := old(pools)[i].shrine;
              && pools == old(pools)[i := old(pools)[i].(shrine := sh.(allocations := sh.allocations + [buffer.allocation],
                                                                         buffers := sh.buffers + [buffer.buffer]))]
              && destroyed == old(destroyed))
        && (i == |old(pools)| ==>
              pools == old(pools) && destroyed == old(destroyed) + [BufferObject(buffer.buffer), Allocation(buffer.allocation)])
      ensures timelineValue == old(timelineValue) && nextHandle == old(nextHandle) && Caches() == old(Caches())
    {
      var i := FindPool(Executing(timelineValue));
      if i < |pools| {
        var sh := pools[i].shrine;
        pools := pools[i := pools[i].(shrine := sh.(allocations := sh.allocations + [buffer.allocation],
                                                    buffers := sh.buffers + [buffer.buffer]))];
        SameStatesKeepValid(old(pools), pools, timelineValue);
        return;
      }
      destroyed := destroyed + [BufferObject(buffer.buffer)];
      destroyed := destroyed + [Allocation(buffer.allocation)];
    }

    /** `retire_image`: like `retire_buffer`; an image without its own allocation parks or
        frees only the image. */
    method RetireImage(image: GpuTypes.Image)
      requires Valid()
      modifies this
      ensures Valid()
      ensures var i := FirstInState(old(pools), Executing(timelineValue));
        var memory := if image.allocation.Some? then [image.allocation.value] else [];
        && (i < |old(pools)| ==>
              var sh := old(pools)[i].shrine;
              && pools == old(pools)[i := old(pools)[i].(shrine := sh.(allocations := sh.allocations + memory,
                                                                         images := sh.images + [image.image]))]
              && destroyed == old(destroyed))
        && (i == |old(pools)| ==>
              && pools == old(pools)
              && destroyed == old(destroyed) + [ImageObject(image.image)]
                 + (if image.allocation.Some? then [Allocation(image.allocation.value)] else []))
      ensures timelineValue == old(timelineValue) && nextHandle == old(nextHandle) && Caches() == old(Caches())
    {
      var i := FindPool(Executing(timelineValue));
      if i < |pools| {
        var sh := pools[i].shrine;
        var memory: seq<nat> := if image.allocation.Some? then [image.allocation.value] else [];
        pools := pools[i := pools[i].(shrine := sh.(allocations := sh.allocations + memory, images := sh.images + [image.image]))];
        SameStatesKeepValid(old(pools), pools, timelineValue);
        return;
      }
      destroyed := destroyed + [ImageObject(image.image)];
      if image.allocation.Some? {
        destroyed := destroyed + [Allocation(image.allocation.value)];
      }
    }

    /** `retire_image_view`: parked or destroyed as `retire_buffer` decides. */
    method RetireImageView(view: nat)
      requires Valid()
      modifies this
      ensures Valid()
      ensures var i := FirstInState(old(pools), Executing(timelineValue));
        && (i < |old(pools)| ==>
              var sh := old(pools)[i].shrine;
              && pools == old(pools)[i := old(pools)[i].(shrine := sh.(imageViews := sh.imageViews + [view]))]
              && destroyed == old(destroyed))
        && (i == |old(pools)| ==> pools == old(pools) && destroyed == old(destroyed) + [ImageViewObject(view)])
      ensures timelineValue == old(timelineValue) && nextHandle == old(nextHandle) && Caches() == old(Caches())
    {
      var i := FindPool(Executing(timelineValue));
      if i < |pools| {
        var sh := pools[i].shrine;
        pools := pools[i := pools[i].(shrine := sh.(imageViews := sh.imageViews + [view]))];
        SameStatesKeepValid(old(pools), pools, timelineValue);
        return;
      }
      destroyed := destroyed + [ImageViewObject(view)];
    }

    /** `cmd_retire_buffer`: always parked in the given pool's shrine, whatever its state. */
    method CmdRetireBuffer(pool: Pool, buffer: GpuTypes.Buffer)
      requires Valid() && pool.id < |pools|
      modifies this
      ensures Valid()
      ensures var sh := old(pools)[pool.id].shrine;
        pools == old(pools)[pool.id := old(pools)[pool.id].(shrine := sh.(allocations := sh.allocations + [buffer.allocation],
                                                                            buffers := sh.buffers + [buffer.buffer]))]
      ensures timelineValue == old(timelineValue) && destroyed == old(destroyed)
      ensures nextHandle == old(nextHandle) && Caches() == old(Caches())
    {
      var sh := pools[pool.id].shrine;
      sh := sh.(allocations := sh.allocations + [buffer.allocation]);
      pools := pools[pool.id := pools[pool.id].(shrine := sh.(buffers := sh.buffers + [buffer.buffer]))];
      SameStatesKeepValid(old(pools), pools, timelineValue);
    }

    /** `cmd_retire_image`: always parked in the given pool's shrine. */
    method CmdRetireImage(pool: Pool, image: GpuTypes.Image)
      requires Valid() && pool.id < |pools|
      modifies this
      ensures Valid()
      ensures var sh := old(pools)[pool.id].shrine;
        var memory := if image.allocation.Some? then [image.allocation.value] else [];
        pools == old(pools)[pool.id := old(pools)[pool.id].(shrine := sh.(allocations := sh.allocations + memory,
                                                                            images := sh.images + [image.image]))]
      ensures timelineValue == old(timelineValue) && destroyed == old(destroyed)
      ensures nextHandle == old(nextHandle) && Caches() == old(Caches())
    {
      var sh := pools[pool.id].shrine;
      var memory: seq<nat> := if image.allocation.Some? then [image.allocation.value] else [];
      pools := pools[pool.id := pools[pool.id].(shrine := sh.(allocations := sh.allocations + memory, images := sh.images + [image.image]))];
      SameStatesKeepValid(old(pools), pools, timelineValue);
    }

    /** `wait(t)` once the timeline has reached `t`: the shrine of every pool executing a
        submission up to `t` is destroyed and emptied. `wait(0)` does nothing. No pool changes
        state: none goes back to `Free`. */
    method Wait(t: nat)
      requires Valid()
      modifies this
      ensures Valid()
      ensures t == 0 ==> pools == old(pools) && destroyed == old(destroyed)
      ensures t > 0 ==> |pools| == |old(pools)| && (forall i :: 0 <= i < |pools| ==> pools[i] == Drain(old(pools)[i], t))
      ensures t > 0 ==> destroyed == old(destroyed) + DrainLog(old(pools), t)
      ensures forall i :: 0 <= i < |pools| ==> pools[i].state == old(pools)[i].state
      ensures timelineValue == old(timelineValue) && nextHandle == old(nextHandle) && Caches() == old(Caches())
    {
      if t == 0 {
        return;
      }
      ghost var ps, log0 := pools, destroyed;
      for i := 0 to |pools|
        invariant |pools| == |ps|
        invariant forall j :: 0 <= j < i ==> pools[j] == Drain(ps[j], t)
        invariant forall j :: i <= j < |pools| ==> pools[j] == ps[j]
        invariant destroyed == log0 + DrainLog(ps[..i], t)
        invariant timelineValue == old(timelineValue) && nextHandle == old(nextHandle) && Caches() == old(Caches())
      {
        assert ps[..i + 1][..i] == ps[..i];
        DrainAt(i, t);
      }
      assert ps[..|ps|] == ps;
      SameStatesKeepValid(ps, pools, timelineValue);
    }

    /** One step of `wait(t)`: pool `i`, if due, has its shrine destroyed and emptied. */
    method DrainAt(i: nat, t: nat)
      requires i < |pools|
      modifies this
      ensures pools == old(pools)[i := Drain(old(pools)[i], t)]
      ensures destroyed == old(destroyed) + if Due(old(pools)[i], t) then Destroys(old(pools)[i].shrine) else []
      ensures timelineValue == old(timelineValue) && nextHandle == old(nextHandle) && Caches() == old(Caches())
    {
      var pool := pools[i];
      if Due(pool, t) {
        destroyed := destroyed + Destroys(pool.shrine);
        pools := pools[i := pool.(shrine := EmptyShrine)];
      }
    }

    /** `storage_image_address`: the descriptor of an image view is created on its first request
        and returned unchanged afterwards; `None` when the descriptor heap is exhausted (the
        original panics). Distinct views get distinct descriptors. */
    method StorageImageAddress(view: nat) returns (address: Option<nat>)
      requires Valid()
      modifies this, descriptorsStorageImage, descriptorsStorageImage.cpu
      ensures Valid()
      ensures view in old(addressesStorageImage) ==>
        address == Some(old(addressesStorageImage)[view]) && addressesStorageImage == old(addressesStorageImage)
        && descriptorsStorageImage.issued == old(descriptorsStorageImage.issued)
      ensures view !in old(addressesStorageImage) && address.Some? ==>
        && address.value !in old(descriptorsStorageImage.issued)
        && addressesStorageImage == old(addressesStorageImage)[view := address.value]
      ensures address == None ==> addressesStorageImage == old(addressesStorageImage) && old(descriptorsStorageImage.free) == []
      ensures pools == old(pools) && timelineValue == old(timelineValue) && destroyed == old(destroyed)
      ensures addressesSampledImage == old(addressesSampledImage) && layouts == old(layouts) && layoutsCreated == old(layoutsCreated)
      ensures nextHandle == old(nextHandle)
    {
      if view in addressesStorageImage {
        return Some(addressesStorageImage[view]);
      }
      var descriptor := descriptorsStorageImage.Create();
      if descriptor.Some? {
        addressesStorageImage := addressesStorageImage[view := descriptor.value];
      }
      address := descriptor;
    }

    /** `sampled_image_address`: a new descriptor on every call, remembered for the pair. */
    method SampledImageAddress(view: nat, sampler: nat) returns (address: Option<nat>)
      requires Valid()
      modifies this, descriptorsSampledImage, descriptorsSampledImage.cpu
      ensures Valid()
      ensures address.Some? ==>
        && address.value !in old(descriptorsSampledImage.issued)
        && addressesSampledImage == old(addressesSampledImage)[(view, sampler) := address.value]
      ensures address == None ==> addressesSampledImage == old(addressesSampledImage) && old(descriptorsSampledImage.free) == []
      ensures pools == old(pools) && timelineValue == old(timelineValue) && destroyed == old(destroyed)
      ensures addressesStorageImage == old(addressesStorageImage) && layouts == old(layouts) && layoutsCreated == old(layoutsCreated)
      ensures nextHandle == old(nextHandle)
    {
      var descriptor := descriptorsSampledImage.Create();
      if descriptor.Some? {
        addressesSampledImage := addressesSampledImage[(view, sampler) := descriptor.value];
      }
      address := descriptor;
    }

    /** The layout lookup of `create_compute_pipeline` and `create_graphics_pipeline`: a layout
        with `size` bytes of push constants is created on the first request only. */
    method PipelineLayout(size: nat) returns (layout: nat)
      requires Valid()
      modifies this
      ensures Valid()
      ensures size in old(layouts) ==>
        layout == old(layouts)[size] && layouts == old(layouts) && layoutsCreated == old(layoutsCreated) && nextHandle == old(nextHandle)
      ensures size !in old(layouts) ==>
        && layout == old(nextHandle) && nextHandle == old(nextHandle) + 1
        && layouts == old(layouts)[size := layout] && layoutsCreated == old(layoutsCreated) + [size]
        && forall s :: s in old(layouts) ==> old(layouts)[s] != layout
      ensures pools == old(pools) && timelineValue == old(timelineValue) && destroyed == old(destroyed)
      ensures addressesSampledImage == old(addressesSampledImage) && addressesStorageImage == old(addressesStorageImage)
    {
      if size in layouts {
        return layouts[size];
      }
      var pushConstants := PushConstantRanges(size);
      layout := nextHandle;
      nextHandle := nextHandle + 1;
      layouts := layouts[size := layout];
      layoutsCreated := layoutsCreated + [size];
    }
  }

  lemma FirstInStateSkip(ps: seq<PoolData>, s: PoolState, i: nat)
    requires i < |ps| && ps[i].state != s && FirstInState(ps, s) >= i
    ensures FirstInState(ps, s) >= i + 1
  {
  }

  /** Submitted pools carry distinct timestamps, so the first pool executing a given
      submission is the only one: `retire_*` cannot pick between two. */
  lemma ExecutingUnique(ps: seq<PoolData>, t: nat, j: nat)
    requires forall a, b :: 0 <= a < b < |ps| && ps[a].state.Executing? ==> ps[a].state != ps[b].state
    requires j < |ps| && ps[j].state == Executing(t)
    ensures FirstInState(ps, Executing(t)) == j
  {
  }

  /** With the timeline caught up to the latest submission, `wait` empties every shrine of
      every executing pool. */
  lemma WaitCaughtUp(ps: seq<PoolData>, timeline: nat, t: nat)
    requires forall i :: 0 <= i < |ps| && ps[i].state.Executing? ==> ps[i].state.t <= timeline
    requires timeline <= t
    ensures forall i :: 0 <= i < |ps| && ps[i].state.Executing? ==> Drain(ps[i], t).shrine == EmptyShrine
  {
  }
}
