/** What `App::destroy_swapchain` and `App::destroy` (src/app.rs:154-183)
    release, and in which order.

    Two properties are proved about the destroy calls:
    - every object the application owns is released, nothing else is, and
      each as often as it is owned (no leak, no double free);
    - objects are released in dependency order: nothing is destroyed while
      an object that refers to it is still alive (`Vk.DependsOn`). */
module Teardown {
  import opened Vk
  import opened Scheduler

  /** The objects of a swapchain chain, in the order `Data` declares them
      (src/app/app_data.rs).  Swapchain images belong to the swapchain and
      are not released on their own. */
  function ChainOwned(c: Chain): multiset<Object>
  {
    multiset{Object(Swapchain, c.swapchain)}
    + multiset(Objects(ImageView, c.views))
    + multiset{Object(RenderPass, c.renderPass), Object(PipelineLayout, c.pipelineLayout), Object(Pipeline, c.pipeline)}
    + multiset(Objects(Framebuffer, c.framebuffers))
    + multiset(Objects(CommandBuffer, c.commandBuffers))
  }

  /** The synchronisation objects of the frame slots, in the order `Data`
      declares them. */
  function SyncOwned(s: State): multiset<Object>
  {
    multiset(Objects(Semaphore, s.imageAvailableSemaphores))
    + multiset(Objects(Semaphore, s.renderFinishedSemaphores))
    + multiset(Objects(Fence, s.inFlightFences))
  }

  /** The other objects created from the device, and the device itself. */
  function DeviceOwned(s: State): multiset<Object>
  {
    multiset{Object(CommandPool, s.commandPool), Object(Buffer, s.vertexBuffer), Object(Memory, s.vertexBufferMemory)}
    + multiset{Object(Device, NULL)}
  }

  /** The objects created from the instance, and the instance itself.  The
      messenger exists only when validation is enabled. */
  function InstanceOwned(s: State, validation: bool): multiset<Object>
  {
    (if validation then multiset{Object(Messenger, s.messenger)} else multiset{})
    + multiset{Object(Surface, s.surface)}
    + multiset{Object(Instance, NULL)}
  }

  /** Everything `App` owns once `App::create` has succeeded, grouped by
      the object that created it.  The images-in-flight table holds copies
      of fence handles, not objects of its own. */
  function Owned(s: State, validation: bool): multiset<Object>
  {
    InstanceOwned(s, validation) + DeviceOwned(s) + SyncOwned(s) + ChainOwned(s.chain)
  }

  /** The calls `destroy` makes: wait for the device, destroy the chain,
      then the slots' synchronisation objects, the objects owned by the
      device and the device, and the objects owned by the instance and the
      instance. */
  function DestroyCalls(s: State, validation: bool): (r: seq<Call>)
    ensures |r| > 0 && r[0] == DeviceWaitIdle
  {
    [DeviceWaitIdle]
    + DestroySwapchainCalls(s.commandPool, s.chain)
    + DestroySyncCalls(s)
    + DestroyDeviceCalls(s)
    + DestroyInstanceCalls(s, validation)
  }

  /** The same calls, appended to a log one group at a time. */
  lemma DestroyCallsInOrder(log: seq<Call>, s: State, validation: bool)
    ensures log + DestroyCalls(s, validation)
         == log + [DeviceWaitIdle] + DestroySwapchainCalls(s.commandPool, s.chain)
            + Each(Fence, s.inFlightFences) + Each(Semaphore, s.renderFinishedSemaphores)
            + Each(Semaphore, s.imageAvailableSemaphores)
            + [FreeMemory(s.vertexBufferMemory)] + [DestroyBuffer(s.vertexBuffer)]
            + [DestroyCommandPool(s.commandPool)] + [DestroyDevice]
            + [DestroySurface(s.surface)] + (if validation then [DestroyDebugMessenger(s.messenger)] else [])
            + [DestroyInstance]
  {
    var chain := [DeviceWaitIdle] + DestroySwapchainCalls(s.commandPool, s.chain);
    var e1 := Each(Fence, s.inFlightFences);
    var e2 := Each(Semaphore, s.renderFinishedSemaphores);
    var e3 := Each(Semaphore, s.imageAvailableSemaphores);
    var d1, d2, d3, d4 := [FreeMemory(s.vertexBufferMemory)], [DestroyBuffer(s.vertexBuffer)],
      [DestroyCommandPool(s.commandPool)], [DestroyDevice];
    var i1, i3 := [DestroySurface(s.surface)], [DestroyInstance];
    var i2: seq<Call> := if validation then [DestroyDebugMessenger(s.messenger)] else [];
    var sync := e1 + e2 + e3;
    var device := d1 + d2 + d3 + d4;
    var instance := i1 + i2 + i3;
    assert DestroyCalls(s, validation) == chain + sync + device + instance;
    var l1 := log + chain;
    assert log + (chain + sync + device + instance) == l1 + sync + device + instance by {
      AppendAssoc(log, chain + sync + device, instance);
      AppendAssoc(log, chain + sync, device);
      AppendAssoc(log, chain, sync);
    }
    var l2 := l1 + e1 + e2 + e3;
    assert l1 + sync + device + instance == l2 + device + instance by {
      AppendAssoc(l1, e1 + e2, e3);
      AppendAssoc(l1, e1, e2);
    }
    var l3 := l2 + d1 + d2 + d3 + d4;
    assert l2 + device + instance == l3 + instance by {
      AppendAssoc(l2, d1 + d2 + d3, d4);
      AppendAssoc(l2, d1 + d2, d3);
      AppendAssoc(l2, d1, d2);
    }
    assert l3 + instance == l3 + i1 + i2 + i3 by {
      AppendAssoc(l3, i1 + i2, i3);
      AppendAssoc(l3, i1, i2);
    }
    assert log + chain == log + [DeviceWaitIdle] + DestroySwapchainCalls(s.commandPool, s.chain) by {
      AppendAssoc(log, [DeviceWaitIdle], DestroySwapchainCalls(s.commandPool, s.chain));
    }
  }

  /** Fences, then render-finished and image-available semaphores. */
  function DestroySyncCalls(s: State): seq<Call>
  {
    Each(Fence, s.inFlightFences)
    + Each(Semaphore, s.renderFinishedSemaphores)
    + Each(Semaphore, s.imageAvailableSemaphores)
  }

  /** The vertex buffer's memory, the vertex buffer, the command pool and
      the device. */
  function DestroyDeviceCalls(s: State): seq<Call>
  {
    [FreeMemory(s.vertexBufferMemory)]
    + [DestroyBuffer(s.vertexBuffer)]
    + [DestroyCommandPool(s.commandPool)]
    + [DestroyDevice]
  }

  /** The surface, the debug messenger when validation is enabled, and the
      instance. */
  function DestroyInstanceCalls(s: State, validation: bool): seq<Call>
  {
    [DestroySurface(s.surface)]
    + (if validation then [DestroyDebugMessenger(s.messenger)] else [])
    + [DestroyInstance]
  }

  /** Appending one call appends what it releases. */
  lemma AllReleasedSnoc(cs: seq<Call>, c: Call)
    ensures AllReleased(cs + [c]) == AllReleased(cs) + Released(c)
  {
    AllReleasedAppend(cs, [c]);
    assert [c][1..] == [];
  }

  /** Destroying handle by handle releases exactly those handles. */
  lemma {:induction false} EachReleases(kind: Kind, hs: seq<Handle>)
    requires OneByOne(kind)
    ensures AllReleased(Each(kind, hs)) == Objects(kind, hs)
    decreases |hs|
  {
    if hs != [] {
      var first := Destroy(kind, hs[0]);
      assert Each(kind, hs) == [first] + Each(kind, hs[1..]);
      AllReleasedAppend([first], Each(kind, hs[1..]));
      assert [first][1..] == [];
      EachReleases(kind, hs[1..]);
    }
  }

  /** The objects `destroy_swapchain` releases, in order. */
  function ChainReleased(c: Chain): seq<Object>
  {
    Objects(CommandBuffer, c.commandBuffers)
    + Objects(Framebuffer, c.framebuffers)
    + [Object(Pipeline, c.pipeline)]
    + [Object(PipelineLayout, c.pipelineLayout)]
    + [Object(RenderPass, c.renderPass)]
    + Objects(ImageView, c.views)
    + [Object(Swapchain, c.swapchain)]
  }

  lemma DestroySwapchainReleases(pool: Handle, c: Chain)
    ensures AllReleased(DestroySwapchainCalls(pool, c)) == ChainReleased(c)
  {
    var free := FreeCommandBuffers(pool, c.commandBuffers);
    ReleasedInChainShape(free, Each(Framebuffer, c.framebuffers), DestroyPipeline(c.pipeline),
      DestroyPipelineLayout(c.pipelineLayout), DestroyRenderPass(c.renderPass),
      Each(ImageView, c.views), DestroySwapchain(c.swapchain));
    EachReleases(Framebuffer, c.framebuffers);
    EachReleases(ImageView, c.views);
    ChainCallsRelease(pool, c);
  }

  /** What each single call of `destroy_swapchain` releases. */
  lemma ChainCallsRelease(pool: Handle, c: Chain)
    ensures Released(FreeCommandBuffers(pool, c.commandBuffers)) == Objects(CommandBuffer, c.commandBuffers)
    ensures Released(DestroyPipeline(c.pipeline)) == [Object(Pipeline, c.pipeline)]
    ensures Released(DestroyPipelineLayout(c.pipelineLayout)) == [Object(PipelineLayout, c.pipelineLayout)]
    ensures Released(DestroyRenderPass(c.renderPass)) == [Object(RenderPass, c.renderPass)]
    ensures Released(DestroySwapchain(c.swapchain)) == [Object(Swapchain, c.swapchain)]
  {
  }

  /** What a sequence of the shape of `DestroySwapchainCalls` releases. */
  lemma ReleasedInChainShape(c1: Call, e1: seq<Call>, c2: Call, c3: Call, c4: Call, e2: seq<Call>, c5: Call)
    ensures AllReleased([c1] + e1 + [c2] + [c3] + [c4] + e2 + [c5])
         == Released(c1) + AllReleased(e1) + Released(c2) + Released(c3) + Released(c4) + AllReleased(e2) + Released(c5)
  {
    assert [c1][1..] == [];
    AllReleasedAppend([c1], e1);
    AllReleasedSnoc([c1] + e1, c2);
    AllReleasedSnoc([c1] + e1 + [c2], c3);
    AllReleasedSnoc([c1] + e1 + [c2] + [c3], c4);
    AllReleasedAppend([c1] + e1 + [c2] + [c3] + [c4], e2);
    AllReleasedSnoc([c1] + e1 + [c2] + [c3] + [c4] + e2, c5);
  }

  /** The chain's objects as released, counted. */
  lemma ChainReleasedOwned(c: Chain)
    ensures multiset(ChainReleased(c)) == ChainOwned(c)
  {
  }

  /** `destroy_swapchain` releases every object of the chain exactly as
      often as the chain holds it, and nothing else. */
  lemma DestroySwapchainReleasesChain(pool: Handle, c: Chain)
    ensures multiset(AllReleased(DestroySwapchainCalls(pool, c))) == ChainOwned(c)
  {
    DestroySwapchainReleases(pool, c);
    ChainReleasedOwned(c);
  }

  /** All objects of one kind are released at the same rank. */
  lemma ObjectsRanked(kind: Kind, hs: seq<Handle>)
    ensures RankSorted(Objects(kind, hs)) && RanksWithin(Objects(kind, hs), Rank(kind), Rank(kind))
  {
  }

  lemma SingleRanked(o: Object)
    ensures RankSorted([o]) && RanksWithin([o], Rank(o.kind), Rank(o.kind))
  {
  }

  /** The chain's objects come in non-decreasing rank, from command buffers
      (1) to the swapchain (7). */
  lemma ChainReleasedSorted(c: Chain)
    ensures RankSorted(ChainReleased(c)) && RanksWithin(ChainReleased(c), 1, 7)
  {
    var o1 := Objects(CommandBuffer, c.commandBuffers);
    var o2 := o1 + Objects(Framebuffer, c.framebuffers);
    var o3 := o2 + [Object(Pipeline, c.pipeline)];
    var o4 := o3 + [Object(PipelineLayout, c.pipelineLayout)];
    var o5 := o4 + [Object(RenderPass, c.renderPass)];
    var o6 := o5 + Objects(ImageView, c.views);
    ObjectsRanked(CommandBuffer, c.commandBuffers);
    ObjectsRanked(Framebuffer, c.framebuffers);
    RankSortedJoin(o1, Objects(Framebuffer, c.framebuffers), 1, 1, 2);
    SingleRanked(Object(Pipeline, c.pipeline));
    RankSortedJoin(o2, [Object(Pipeline, c.pipeline)], 1, 2, 3);
    SingleRanked(Object(PipelineLayout, c.pipelineLayout));
    RankSortedJoin(o3, [Object(PipelineLayout, c.pipelineLayout)], 1, 3, 4);
    SingleRanked(Object(RenderPass, c.renderPass));
    RankSortedJoin(o4, [Object(RenderPass, c.renderPass)], 1, 4, 5);
    ObjectsRanked(ImageView, c.views);
    RankSortedJoin(o5, Objects(ImageView, c.views), 1, 5, 6);
    SingleRanked(Object(Swapchain, c.swapchain));
    RankSortedJoin(o6, [Object(Swapchain, c.swapchain)], 1, 6, 7);
  }

  /** `destroy_swapchain` releases in dependency order: command buffers,
      framebuffers, the pipeline, its layout, the render pass, the image
      views and finally the swapchain. */
  lemma DestroySwapchainRespectsDependencies(pool: Handle, c: Chain)
    ensures DependenciesRespected(AllReleased(DestroySwapchainCalls(pool, c)))
  {
    DestroySwapchainReleases(pool, c);
    ChainReleasedSorted(c);
    RankSortedRespectsDependencies(ChainReleased(c));
  }

  /** The objects `destroy` releases after the chain, in order. */
  function SyncReleased(s: State): seq<Object>
  {
    Objects(Fence, s.inFlightFences)
    + Objects(Semaphore, s.renderFinishedSemaphores)
    + Objects(Semaphore, s.imageAvailableSemaphores)
  }

  function DeviceReleased(s: State): seq<Object>
  {
    [Object(Memory, s.vertexBufferMemory)]
    + [Object(Buffer, s.vertexBuffer)]
    + [Object(CommandPool, s.commandPool)]
    + [Object(Device, NULL)]
  }

  function InstanceReleased(s: State, validation: bool): seq<Object>
  {
    [Object(Surface, s.surface)]
    + (if validation then [Object(Messenger, s.messenger)] else [])
    + [Object(Instance, NULL)]
  }

  /** Everything `destroy` releases, in order. */
  function DestroyReleased(s: State, validation: bool): seq<Object>
  {
    ChainReleased(s.chain) + SyncReleased(s) + DeviceReleased(s) + InstanceReleased(s, validation)
  }

  lemma DestroySyncReleases(s: State)
    ensures AllReleased(DestroySyncCalls(s)) == SyncReleased(s)
  {
    var p1 := Each(Fence, s.inFlightFences);
    var p2 := Each(Semaphore, s.renderFinishedSemaphores);
    var p3 := Each(Semaphore, s.imageAvailableSemaphores);
    AllReleasedAppend(p1 + p2, p3);
    AllReleasedAppend(p1, p2);
    EachReleases(Fence, s.inFlightFences);
    EachReleases(Semaphore, s.renderFinishedSemaphores);
    EachReleases(Semaphore, s.imageAvailableSemaphores);
  }

  lemma DestroyDeviceReleases(s: State)
    ensures AllReleased(DestroyDeviceCalls(s)) == DeviceReleased(s)
  {
    var p1 := [FreeMemory(s.vertexBufferMemory)];
    var p2 := p1 + [DestroyBuffer(s.vertexBuffer)];
    var p3 := p2 + [DestroyCommandPool(s.commandPool)];
    assert p1[1..] == [];
    AllReleasedSnoc(p1, DestroyBuffer(s.vertexBuffer));
    AllReleasedSnoc(p2, DestroyCommandPool(s.commandPool));
    AllReleasedSnoc(p3, DestroyDevice);
  }

  lemma DestroyInstanceReleases(s: State, validation: bool)
    ensures AllReleased(DestroyInstanceCalls(s, validation)) == InstanceReleased(s, validation)
  {
    var p1 := [DestroySurface(s.surface)];
    var p2: seq<Call> := if validation then [DestroyDebugMessenger(s.messenger)] else [];
    assert p1[1..] == [];
    AllReleasedAppend(p1, p2);
    if validation {
      assert p2[1..] == [];
    }
    AllReleasedSnoc(p1 + p2, DestroyInstance);
  }

  lemma DestroyReleases(s: State, validation: bool)
    ensures AllReleased(DestroyCalls(s, validation)) == DestroyReleased(s, validation)
  {
    var q1 := [DeviceWaitIdle] + DestroySwapchainCalls(s.commandPool, s.chain);
    var q2 := q1 + DestroySyncCalls(s);
    var q3 := q2 + DestroyDeviceCalls(s);
    var r1 := ChainReleased(s.chain);
    var r2 := r1 + SyncReleased(s);
    var r3 := r2 + DeviceReleased(s);
    assert AllReleased(q1) == r1 by {
      assert [DeviceWaitIdle][1..] == [];
      AllReleasedAppend([DeviceWaitIdle], DestroySwapchainCalls(s.commandPool, s.chain));
      DestroySwapchainReleases(s.commandPool, s.chain);
    }
    assert AllReleased(q2) == r2 by {
      AllReleasedAppend(q1, DestroySyncCalls(s));
      DestroySyncReleases(s);
    }
    assert AllReleased(q3) == r3 by {
      AllReleasedAppend(q2, DestroyDeviceCalls(s));
      DestroyDeviceReleases(s);
    }
    assert AllReleased(q3 + DestroyInstanceCalls(s, validation)) == r3 + InstanceReleased(s, validation) by {
      AllReleasedAppend(q3, DestroyInstanceCalls(s, validation));
      DestroyInstanceReleases(s, validation);
    }
  }

  lemma SyncReleasedOwned(s: State)
    ensures multiset(SyncReleased(s)) == SyncOwned(s)
  {
  }

  lemma DeviceReleasedOwned(s: State)
    ensures multiset(DeviceReleased(s)) == DeviceOwned(s)
  {
  }

  lemma InstanceReleasedOwned(s: State, validation: bool)
    ensures multiset(InstanceReleased(s, validation)) == InstanceOwned(s, validation)
  {
  }

  /** The released objects, counted, are the owned ones. */
  lemma DestroyReleasedOwned(s: State, validation: bool)
    ensures multiset(DestroyReleased(s, validation)) == Owned(s, validation)
  {
    var chain := ChainReleased(s.chain);
    var sync := SyncReleased(s);
    var device := DeviceReleased(s);
    var instance := InstanceReleased(s, validation);
    ChainReleasedOwned(s.chain);
    SyncReleasedOwned(s);
    DeviceReleasedOwned(s);
    InstanceReleasedOwned(s, validation);
    CountJoin(chain, sync, device, instance);
  }

  lemma CountJoin(a: seq<Object>, b: seq<Object>, c: seq<Object>, d: seq<Object>)
    ensures multiset(a + b + c + d) == multiset(a) + multiset(b) + multiset(c) + multiset(d)
  {
  }

  /** `destroy` releases every object `App` owns exactly as often as it
      owns it, and nothing else: no leak and no double free. */
  lemma DestroyReleasesAllOwned(s: State, validation: bool)
    ensures multiset(AllReleased(DestroyCalls(s, validation))) == Owned(s, validation)
  {
    DestroyReleases(s, validation);
    DestroyReleasedOwned(s, validation);
  }

  /** The debug messenger is destroyed exactly when validation is enabled. */
  lemma DestroyMessengerOnlyWithValidation(s: State, validation: bool)
    ensures Object(Messenger, s.messenger) in AllReleased(DestroyCalls(s, validation)) <==> validation
  {
    var m := Object(Messenger, s.messenger);
    DestroyReleasesAllOwned(s, validation);
    OwnedMessenger(s, validation);
  }

  /** Only the instance's part holds the messenger, and only with
      validation. */
  lemma OwnedMessenger(s: State, validation: bool)
    ensures Owned(s, validation)[Object(Messenger, s.messenger)] == if validation then 1 else 0
  {
    var m := Object(Messenger, s.messenger);
    ChainHoldsNoMessenger(s.chain, m);
    SyncHoldsNoMessenger(s, m);
    DeviceHoldsNoMessenger(s, m);
    InstanceHoldsMessenger(s, validation);
    CountSum(InstanceOwned(s, validation), DeviceOwned(s), SyncOwned(s), ChainOwned(s.chain), m);
  }

  lemma CountSum(a: multiset<Object>, b: multiset<Object>, c: multiset<Object>, d: multiset<Object>, o: Object)
    ensures (a + b + c + d)[o] == a[o] + b[o] + c[o] + d[o]
  {
  }

  lemma InstanceHoldsMessenger(s: State, validation: bool)
    ensures InstanceOwned(s, validation)[Object(Messenger, s.messenger)] == if validation then 1 else 0
  {
  }

  lemma DeviceHoldsNoMessenger(s: State, m: Object)
    requires m.kind == Messenger
    ensures DeviceOwned(s)[m] == 0
  {
  }

  lemma ChainHoldsNoMessenger(c: Chain, m: Object)
    requires m.kind == Messenger
    ensures ChainOwned(c)[m] == 0
  {
    NotOfKind(ImageView, c.views, m);
    NotOfKind(Framebuffer, c.framebuffers, m);
    NotOfKind(CommandBuffer, c.commandBuffers, m);
  }

  lemma SyncHoldsNoMessenger(s: State, m: Object)
    requires m.kind == Messenger
    ensures SyncOwned(s)[m] == 0
  {
    NotOfKind(Semaphore, s.imageAvailableSemaphores, m);
    NotOfKind(Semaphore, s.renderFinishedSemaphores, m);
    NotOfKind(Fence, s.inFlightFences, m);
  }

  lemma NotOfKind(kind: Kind, hs: seq<Handle>, o: Object)
    requires o.kind != kind
    ensures multiset(Objects(kind, hs))[o] == 0
  {
    assert o !in Objects(kind, hs);
  }

  lemma SyncReleasedSorted(s: State)
    ensures RankSorted(SyncReleased(s)) && RanksWithin(SyncReleased(s), 8, 8)
  {
    var o1 := Objects(Fence, s.inFlightFences);
    var o2 := Objects(Semaphore, s.renderFinishedSemaphores);
    var o3 := Objects(Semaphore, s.imageAvailableSemaphores);
    ObjectsRanked(Fence, s.inFlightFences);
    ObjectsRanked(Semaphore, s.renderFinishedSemaphores);
    ObjectsRanked(Semaphore, s.imageAvailableSemaphores);
    RankSortedJoin(o1, o2, 8, 8, 8);
    RankSortedJoin(o1 + o2, o3, 8, 8, 8);
  }

  lemma DeviceReleasedSorted(s: State)
    ensures RankSorted(DeviceReleased(s)) && RanksWithin(DeviceReleased(s), 8, 9)
  {
  }

  lemma InstanceReleasedSorted(s: State, validation: bool)
    ensures RankSorted(InstanceReleased(s, validation)) && RanksWithin(InstanceReleased(s, validation), 10, 11)
  {
  }

  /** After the chain: the synchronisation objects (8), the device's other
      objects (8) and the device (9), the surface and messenger (10) and the
      instance (11). */
  lemma DestroyReleasedSorted(s: State, validation: bool)
    ensures RankSorted(DestroyReleased(s, validation))
  {
    var chain := ChainReleased(s.chain);
    var sync := SyncReleased(s);
    var device := DeviceReleased(s);
    ChainReleasedSorted(s.chain);
    SyncReleasedSorted(s);
    DeviceReleasedSorted(s);
    InstanceReleasedSorted(s, validation);
    RankSortedJoin(chain, sync, 1, 7, 8);
    RankSortedJoin(chain + sync, device, 1, 8, 9);
    RankSortedJoin(chain + sync + device, InstanceReleased(s, validation), 1, 9, 11);
  }

  /** `destroy` releases in dependency order: the chain, then the objects
      owned by the device, the device, the surface and messenger, and last
      the instance. */
  lemma DestroyRespectsDependencies(s: State, validation: bool)
    ensures DependenciesRespected(AllReleased(DestroyCalls(s, validation)))
  {
    DestroyReleases(s, validation);
    DestroyReleasedSorted(s, validation);
    RankSortedRespectsDependencies(DestroyReleased(s, validation));
  }
}
