/** The application object (`App`, src/app.rs:34-184): its frame loop and
    its teardown, written as imperative methods on the handle store and
    proved to do exactly what the functions of `Scheduler` and `Teardown`
    say.

    The driver is not modelled as code: every call `App` makes into it is
    appended to the ghost log `calls`, and what the driver answers is
    passed in (`Scheduler.FrameInput`). */
module App {
  import opened Vk
  import Defines
  import opened Scheduler
  import Teardown
  import opened AppData

  class App {
    var data: Data
    /** `app_defines::VALIDATION_ENABLED`, fixed by the build. */
    const validationEnabled: bool
    var frame: nat
    var resized: bool
    /** Every driver call made so far, in order. */
    ghost var calls: seq<Call>

    /** The scheduler state these fields represent. */
    ghost function Model(): State
      reads this
    {
      State(frame, resized, data.inFlightFences, data.imageAvailableSemaphores, data.renderFinishedSemaphores,
            data.imagesInFlight, data.SwapchainChain(), data.commandPool, data.graphicsQueue, data.presentQueue,
            data.surface, data.messenger, data.vertexBuffer, data.vertexBufferMemory, calls)
    }

    ghost predicate Valid()
      reads this
    {
      Scheduler.Valid(Model())
    }

    /** The last step of `App::create`: wrap the filled handle store, start
        at slot 0 with no resize pending.  The handle store is as
        `sync::create_sync_objects` and the chain builders leave it: N
        slots with real fences, a well-formed chain, and an
        images-in-flight table of nulls, one per image. */
    constructor (data: Data, validationEnabled: bool)
      requires |data.inFlightFences| == N && NULL !in data.inFlightFences
      requires |data.imageAvailableSemaphores| == N && |data.renderFinishedSemaphores| == N
      requires ChainValid(data.SwapchainChain())
      requires |data.imagesInFlight| == |data.swapchainImages|
      requires forall k :: 0 <= k < |data.imagesInFlight| ==> data.imagesInFlight[k] == NULL
      ensures Valid()
      ensures this.data == data && this.validationEnabled == validationEnabled
      ensures frame == 0 && !resized && calls == []
    {
      this.data := data;
      this.validationEnabled := validationEnabled;
      frame := 0;
      resized := false;
      calls := [];
    }

    /** `App::render`: one frame of the acquire, submit, present protocol,
        exactly as `Scheduler.Render`. */
    method Render(input: FrameInput) returns (r: Result<()>)
      requires Valid() && Admissible(Model(), input)
      modifies this
      ensures Step(Model(), r) == Scheduler.Render(old(Model()), input)
      ensures data.physicalDevice == old(data.physicalDevice)
    {
      ghost var s0 := Model();
      RenderCases(s0, input);
      var inFlightFence := data.inFlightFences[frame];
      calls := calls + [WaitForFences(inFlightFence)];
      calls := calls + [AcquireNextImage(data.swapchain, data.imageAvailableSemaphores[frame])];
      ghost var s1 := Model();
      assert s1 == BeginFrame(s0);

      if input.acquire.AcquireOutOfDate? {
        r := RecreateSwapchain(input.rebuild);
        return;
      } else if input.acquire.AcquireFailed? {
        return Err(DeviceError);
      }
      var imageIndex := input.acquire.imageIndex;

      SubmitAndPresent(imageIndex);

      r := AfterPresent(input.present, input.rebuild);
    }

    /** Lines 122 to 132 of `App::render`: recreate the swapchain when a
        resize is pending or the present reported a stale swapchain,
        otherwise fail on a present error; then advance the slot. */
    method AfterPresent(present: Present, rebuild: Rebuild) returns (r: Result<()>)
      requires Valid() && (rebuild.Rebuilt? ==> ChainValid(rebuild.chain))
      modifies this
      ensures Step(Model(), r) == FinishFrame(old(Model()), present, rebuild)
      ensures data.physicalDevice == old(data.physicalDevice)
    {
      ghost var s := Model();
      var changed := present == Suboptimal || present == PresentOutOfDate;
      if resized || changed {
        resized := false;
        r := RecreateSwapchain(rebuild);
        if r.Err? {
          return;
        }
      } else if present == PresentFailed {
        return Err(DeviceError);
      }

      frame := (frame + 1) % Defines.MAX_FRAMES_IN_FLIGHT;
      r := Ok(());
      assert frame == NextFrame(s.frame);
    }

    /** Lines 93 to 121 of `App::render`, once image `imageIndex` is
        acquired: wait on the fence recorded for the image if there is one,
        record the slot's fence for it, reset that fence, submit the image's
        command buffer and present the image. */
    method SubmitAndPresent(imageIndex: nat)
      requires Valid() && imageIndex < |data.swapchainImages|
      modifies this
      ensures Model() == SubmitFrame(old(Model()), imageIndex)
      ensures data.physicalDevice == old(data.physicalDevice)
    {
      var inFlightFence := data.inFlightFences[frame];
      var imageInFlight := data.imagesInFlight[imageIndex];
      if imageInFlight != NULL {
        calls := calls + [WaitForFences(imageInFlight)];
      }
      data := data.(imagesInFlight := data.imagesInFlight[imageIndex := inFlightFence]);

      var signal := data.renderFinishedSemaphores[frame];
      calls := calls + [ResetFences(inFlightFence)];
      calls := calls + [QueueSubmit(data.graphicsQueue, data.commandBuffers[imageIndex],
                                    data.imageAvailableSemaphores[frame], COLOR_ATTACHMENT_OUTPUT,
                                    signal, inFlightFence)];
      calls := calls + [QueuePresent(data.presentQueue, data.swapchain, imageIndex, signal)];
    }

    /** `App::recreate_swapchain`: wait for the device, tear down the chain,
        run the builders, and resize the images-in-flight table to the new
        image count.  The builders are not modelled; `rebuild` is what they
        produce. */
    method RecreateSwapchain(rebuild: Rebuild) returns (r: Result<()>)
      requires Valid() && (rebuild.Rebuilt? ==> ChainValid(rebuild.chain))
      modifies this
      ensures Step(Model(), r) == Recreate(old(Model()), rebuild)
      ensures data.physicalDevice == old(data.physicalDevice)
    {
      ghost var s := Model();
      calls := calls + [DeviceWaitIdle];
      DestroySwapchain();
      AppendAssoc(s.calls, [DeviceWaitIdle], DestroySwapchainCalls(s.commandPool, s.chain));
      assert calls == s.calls + RecreateCalls(s);

      if rebuild.RebuildFailed? {
        return Err(DeviceError);
      }
      var c := rebuild.chain;
      // swapchain::create and create_swapchain_image_views
      data := data.(swapchain := c.swapchain, swapchainFormat := c.format, swapchainExtent := c.extent,
                    swapchainImages := c.images, swapchainImageViews := c.views);
      // pipeline::create_render_pass and create_pipeline
      data := data.(renderPass := c.renderPass, pipelineLayout := c.pipelineLayout, pipeline := c.pipeline);
      // framebuffer::create and command_buffer::create_command_buffers
      data := data.(framebuffers := c.framebuffers, commandBuffers := c.commandBuffers);

      data := data.(imagesInFlight := Resize(data.imagesInFlight, |data.swapchainImages|, NULL));
      r := Ok(());
    }

    /** `App::destroy_swapchain`: free the command buffers, destroy each
        framebuffer, the pipeline, its layout and the render pass, each
        image view, and the swapchain. */
    method DestroySwapchain()
      modifies this
      ensures calls == old(calls) + DestroySwapchainCalls(data.commandPool, data.SwapchainChain())
      ensures data == old(data) && frame == old(frame) && resized == old(resized)
    {
      ghost var start := calls;
      var free := FreeCommandBuffers(data.commandPool, data.commandBuffers);
      calls := calls + [free];
      DestroyEach(Framebuffer, data.framebuffers);
      ghost var e1 := Each(Framebuffer, data.framebuffers);
      AppendAssoc(start, [free], e1);
      calls := calls + [DestroyPipeline(data.pipeline)];
      AppendAssoc(start, [free] + e1, [DestroyPipeline(data.pipeline)]);
      calls := calls + [DestroyPipelineLayout(data.pipelineLayout)];
      AppendAssoc(start, [free] + e1 + [DestroyPipeline(data.pipeline)], [DestroyPipelineLayout(data.pipelineLayout)]);
      calls := calls + [DestroyRenderPass(data.renderPass)];
      ghost var p5 := [free] + e1 + [DestroyPipeline(data.pipeline)] + [DestroyPipelineLayout(data.pipelineLayout)];
      AppendAssoc(start, p5, [DestroyRenderPass(data.renderPass)]);
      DestroyEach(ImageView, data.swapchainImageViews);
      ghost var e2 := Each(ImageView, data.swapchainImageViews);
      AppendAssoc(start, p5 + [DestroyRenderPass(data.renderPass)], e2);
      calls := calls + [Call.DestroySwapchain(data.swapchain)];
      AppendAssoc(start, p5 + [DestroyRenderPass(data.renderPass)] + e2, [Call.DestroySwapchain(data.swapchain)]);
    }

    /** `App::destroy`: wait for the device, tear down the chain, then the
        slots' fences and semaphores, the vertex buffer's memory and the
        buffer, the command pool, the device, the surface, the messenger
        when validation is enabled, and the instance. */
    method Destroy()
      modifies this
      ensures calls == old(calls) + Teardown.DestroyCalls(old(Model()), validationEnabled)
      ensures data == old(data) && frame == old(frame) && resized == old(resized)
    {
      ghost var s := Model();
      calls := calls + [DeviceWaitIdle];
      DestroySwapchain();
      DestroyEach(Fence, data.inFlightFences);
      DestroyEach(Semaphore, data.renderFinishedSemaphores);
      DestroyEach(Semaphore, data.imageAvailableSemaphores);
      calls := calls + [FreeMemory(data.vertexBufferMemory)];
      calls := calls + [DestroyBuffer(data.vertexBuffer)];
      calls := calls + [DestroyCommandPool(data.commandPool)];
      calls := calls + [Call.DestroyDevice];
      calls := calls + [DestroySurface(data.surface)];
      if validationEnabled {
        calls := calls + [DestroyDebugMessenger(data.messenger)];
      }
      calls := calls + [Call.DestroyInstance];
      Teardown.DestroyCallsInOrder(s.calls, s, validationEnabled);
    }

    /** `handles.iter().for_each(|h| destroy(*h))` for one kind of object. */
    method DestroyEach(kind: Kind, handles: seq<Handle>)
      requires OneByOne(kind)
      modifies this
      ensures calls == old(calls) + Each(kind, handles)
      ensures data == old(data) && frame == old(frame) && resized == old(resized)
    {
      for i := 0 to |handles|
        invariant calls == old(calls) + Each(kind, handles[..i])
        invariant data == old(data) && frame == old(frame) && resized == old(resized)
      {
        calls := calls + [Scheduler.Destroy(kind, handles[i])];
        EachPrefix(kind, handles, i);
        AppendAssoc(old(calls), Each(kind, handles[..i]), [Scheduler.Destroy(kind, handles[i])]);
      }
      assert handles[..|handles|] == handles;
    }
  }
}
