/** Abstractions of the graphics API that the application calls into.
    Every driver object is an opaque integer handle; 0 is the null handle.
    The calls the application makes are recorded as `Call` values so that
    the order of waits, submissions, presentations and destructions can be
    stated and proved. */
module Vk {

  type Handle = nat

  /** The null handle (`vk::Fence::null()` and friends). */
  const NULL: Handle := 0

  datatype Extent = Extent(width: nat, height: nat)

  datatype Option<T> = None | Some(value: T)

  /** The failures the modelled code reports. */
  datatype Error =
    | DeviceError                    // any error code returned by the driver
    | NoSuitableMemoryType           // "Failed to find suitable memory type."
    | NoSuitablePhysicalDevice       // "Failed to find suitable physical device."
    | MissingQueueFamilies           // the queue-family lookup failed
    | MissingDeviceExtensions        // "Missing required device extensions."
    | InsufficientSwapchainSupport   // "Insufficient swapchain support."

  datatype Result<T> = Ok(value: T) | Err(error: Error)

  /** What `queue_family::QueueFamilyIndices::get` finds: a family that
      supports graphics and one that can present to the surface. */
  datatype QueueFamilyIndices = QueueFamilyIndices(graphics: nat, present: nat)

  /** `vk::PipelineStageFlags::COLOR_ATTACHMENT_OUTPUT` */
  const COLOR_ATTACHMENT_OUTPUT: bv32 := 0x400
  /** `vk::BufferUsageFlags::VERTEX_BUFFER` */
  const VERTEX_BUFFER_USAGE: bv32 := 0x80
  /** `vk::SharingMode::EXCLUSIVE` */
  const SHARING_EXCLUSIVE: nat := 0
  /** `vk::MemoryPropertyFlags::HOST_VISIBLE` and `HOST_COHERENT` */
  const HOST_VISIBLE: bv32 := 0x2
  const HOST_COHERENT: bv32 := 0x4

  /** One call into the driver, with the arguments that matter. */
  datatype Call =
    | WaitForFences(fence: Handle)
    | AcquireNextImage(swapchain: Handle, semaphore: Handle)
    | ResetFences(fence: Handle)
    | QueueSubmit(queue: Handle, commandBuffer: Handle, waitSemaphore: Handle,
                  waitStage: bv32, signalSemaphore: Handle, fence: Handle)
    | QueuePresent(queue: Handle, swapchain: Handle, imageIndex: nat, waitSemaphore: Handle)
    | DeviceWaitIdle
    | FreeCommandBuffers(pool: Handle, commandBuffers: seq<Handle>)
    | DestroyFramebuffer(framebuffer: Handle)
    | DestroyPipeline(pipeline: Handle)
    | DestroyPipelineLayout(layout: Handle)
    | DestroyRenderPass(renderPass: Handle)
    | DestroyImageView(view: Handle)
    | DestroySwapchain(swapchain: Handle)
    | DestroyFence(fence: Handle)
    | DestroySemaphore(semaphore: Handle)
    | FreeMemory(memory: Handle)
    | DestroyBuffer(buffer: Handle)
    | DestroyCommandPool(pool: Handle)
    | DestroyDevice
    | DestroySurface(surface: Handle)
    | DestroyDebugMessenger(messenger: Handle)
    | DestroyInstance
    | CreateBuffer(size: nat, usage: bv32, sharing: nat)
    | AllocateMemory(size: nat, memoryTypeIndex: nat)
    | BindBufferMemory(buffer: Handle, memory: Handle, offset: nat)
    | MapMemory(memory: Handle, offset: nat, size: nat)
    | CopyVertices(count: nat)
    | UnmapMemory(memory: Handle)

  /** The kinds of driver object the application owns. */
  datatype Kind =
    | CommandBuffer | Framebuffer | Pipeline | PipelineLayout | RenderPass | ImageView | Swapchain
    | Fence | Semaphore | Memory | Buffer | CommandPool | Device | Surface | Messenger | Instance

  /** An owned object.  There is one device and one instance; their handles
      are not tracked and are written as `NULL`. */
  datatype Object = Object(kind: Kind, handle: Handle)

  /** One object of the given kind per handle, in order. */
  function Objects(kind: Kind, hs: seq<Handle>): (r: seq<Object>)
    ensures |r| == |hs|
    ensures forall k :: 0 <= k < |hs| ==> r[k] == Object(kind, hs[k])
  {
    if hs == [] then [] else [Object(kind, hs[0])] + Objects(kind, hs[1..])
  }

  /** The objects a call destroys or frees. */
  function Released(c: Call): seq<Object>
  {
    match c
    case FreeCommandBuffers(_, cbs) => Objects(CommandBuffer, cbs)
    case DestroyFramebuffer(h) => [Object(Framebuffer, h)]
    case DestroyPipeline(h) => [Object(Pipeline, h)]
    case DestroyPipelineLayout(h) => [Object(PipelineLayout, h)]
    case DestroyRenderPass(h) => [Object(RenderPass, h)]
    case DestroyImageView(h) => [Object(ImageView, h)]
    case DestroySwapchain(h) => [Object(Swapchain, h)]
    case DestroyFence(h) => [Object(Fence, h)]
    case DestroySemaphore(h) => [Object(Semaphore, h)]
    case FreeMemory(h) => [Object(Memory, h)]
    case DestroyBuffer(h) => [Object(Buffer, h)]
    case DestroyCommandPool(h) => [Object(CommandPool, h)]
    case DestroyDevice => [Object(Device, NULL)]
    case DestroySurface(h) => [Object(Surface, h)]
    case DestroyDebugMessenger(h) => [Object(Messenger, h)]
    case DestroyInstance => [Object(Instance, NULL)]
    case _ => []
  }

  /** The objects a sequence of calls releases, in order. */
  function AllReleased(cs: seq<Call>): seq<Object>
  {
    if cs == [] then [] else Released(cs[0]) + AllReleased(cs[1..])
  }

  /** Appending in two steps is appending once. */
  lemma AppendAssoc<T>(a: seq<T>, b: seq<T>, c: seq<T>)
    ensures a + b + c == a + (b + c)
  {
  }

  lemma {:induction false} AllReleasedAppend(cs: seq<Call>, cs': seq<Call>)
    ensures AllReleased(cs + cs') == AllReleased(cs) + AllReleased(cs')
    decreases |cs|
  {
    if cs == [] {
      assert cs + cs' == cs';
    } else {
      assert (cs + cs')[0] == cs[0];
      assert (cs + cs')[1..] == cs[1..] + cs';
      AllReleasedAppend(cs[1..], cs');
    }
  }

  /** An object of kind `a` refers to one of kind `b`, so it has to be
      destroyed first.  (Memory bound to a buffer may be freed before the
      buffer is destroyed, so buffers do not depend on their memory.) */
  predicate DependsOn(a: Kind, b: Kind)
  {
    match a
    case CommandBuffer => b in {CommandPool, RenderPass, Framebuffer, Pipeline, Buffer, Device}
    case Framebuffer => b in {RenderPass, ImageView, Device}
    case Pipeline => b in {PipelineLayout, RenderPass, Device}
    case ImageView => b in {Swapchain, Device}
    case Swapchain => b in {Surface, Device}
    case PipelineLayout | RenderPass | Fence | Semaphore | Memory | Buffer | CommandPool => b == Device
    case Device | Surface | Messenger => b == Instance
    case Instance => false
  }

  /** The depth of a kind in the dependency order, counted from the objects
      nothing depends on. */
  function Rank(k: Kind): (r: nat)
  {
    match k
    case CommandBuffer => 1
    case Framebuffer => 2
    case Pipeline => 3
    case PipelineLayout => 4
    case RenderPass => 5
    case ImageView => 6
    case Swapchain => 7
    case Fence | Semaphore | Memory | Buffer | CommandPool => 8
    case Device => 9
    case Surface | Messenger => 10
    case Instance => 11
  }

  /** The rank strictly grows along every dependency. */
  lemma RankFollowsDependencies(a: Kind, b: Kind)
    requires DependsOn(a, b)
    ensures Rank(a) < Rank(b)
  {
  }

  /** Objects released in non-decreasing rank. */
  predicate RankSorted(objs: seq<Object>)
  {
    forall i, j :: 0 <= i < j < |objs| ==> Rank(objs[i].kind) <= Rank(objs[j].kind)
  }

  /** No object is released before an object that depends on it. */
  predicate DependenciesRespected(objs: seq<Object>)
  {
    forall i, j :: 0 <= i < j < |objs| ==> !DependsOn(objs[j].kind, objs[i].kind)
  }

  lemma RankSortedRespectsDependencies(objs: seq<Object>)
    requires RankSorted(objs)
    ensures DependenciesRespected(objs)
  {
    forall i, j | 0 <= i < j < |objs|
      ensures !DependsOn(objs[j].kind, objs[i].kind)
    {
      if DependsOn(objs[j].kind, objs[i].kind) {
        RankFollowsDependencies(objs[j].kind, objs[i].kind);
      }
    }
  }

  /** All objects have kinds of rank between `lo` and `hi`. */
  predicate RanksWithin(objs: seq<Object>, lo: nat, hi: nat)
  {
    forall i :: 0 <= i < |objs| ==> lo <= Rank(objs[i].kind) <= hi
  }

  lemma RankSortedJoin(a: seq<Object>, b: seq<Object>, lo: nat, m: nat, hi: nat)
    requires RankSorted(a) && RanksWithin(a, lo, m)
    requires RankSorted(b) && RanksWithin(b, m, hi)
    requires lo <= m <= hi
    ensures RankSorted(a + b) && RanksWithin(a + b, lo, hi)
  {
    var ab := a + b;
    forall i | 0 <= i < |ab| ensures lo <= Rank(ab[i].kind) <= hi {
      if i < |a| {
        assert ab[i] == a[i];
      } else {
        assert ab[i] == b[i - |a|];
      }
    }
    forall i, j | 0 <= i < j < |ab| ensures Rank(ab[i].kind) <= Rank(ab[j].kind) {
      if j < |a| {
      } else if i >= |a| {
        assert ab[i] == b[i - |a|] && ab[j] == b[j - |a|];
      } else {
        assert ab[i] == a[i] && ab[j] == b[j - |a|];
      }
    }
  }
}
