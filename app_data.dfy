/** The handle store of the application (`Data`, src/app/app_data.rs).

    `App` owns its `Data` by value and the builders fill it through `&mut`,
    so it is modelled as a value that `App`'s methods replace field by
    field. */
module AppData {
  import opened Vk
  import Scheduler

  /** Every driver object the application creates, by field. */
  datatype Data = Data(
    messenger: Handle,
    surface: Handle,

    physicalDevice: Handle,
    graphicsQueue: Handle,
    presentQueue: Handle,

    swapchainFormat: nat,
    swapchainExtent: Extent,
    swapchain: Handle,
    swapchainImages: seq<Handle>,
    swapchainImageViews: seq<Handle>,

    renderPass: Handle,
    pipelineLayout: Handle,
    pipeline: Handle,

    framebuffers: seq<Handle>,

    commandPool: Handle,

    vertexBuffer: Handle,
    vertexBufferMemory: Handle,

    commandBuffers: seq<Handle>,

    imageAvailableSemaphores: seq<Handle>,
    renderFinishedSemaphores: seq<Handle>,
    inFlightFences: seq<Handle>,
    imagesInFlight: seq<Handle>)
  {
    /** The fields that are rebuilt with the swapchain. */
    function SwapchainChain(): Scheduler.Chain
    {
      Scheduler.Chain(swapchain, swapchainFormat, swapchainExtent, swapchainImages, swapchainImageViews,
                      renderPass, pipelineLayout, pipeline, framebuffers, commandBuffers)
    }
  }
}
