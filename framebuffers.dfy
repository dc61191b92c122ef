/** `framebuffer::create` (src/app/framebuffer.rs:6-22): one framebuffer per
    swapchain image view, in order, each drawing into that view alone with
    the swapchain's render pass and extent.

    `device.create_framebuffer` is the driver's: its answer for each create
    info is the parameter `device`. */
module Framebuffers {
  import opened Vk
  import opened AppData

  /** The fields of `vk::FramebufferCreateInfo` the code sets. */
  datatype FramebufferCreateInfo = FramebufferCreateInfo(
    renderPass: Handle,
    attachments: seq<Handle>,
    width: nat,
    height: nat,
    layers: nat)

  /** The create info built for image view `view` (lines 9-15). */
  function CreateInfo(renderPass: Handle, view: Handle, extent: Extent): FramebufferCreateInfo
  {
    FramebufferCreateInfo(renderPass, [view], extent.width, extent.height, 1)
  }

  /** The `map` and `collect::<Result<Vec<_>, _>>()` of lines 7-19: stop at
      the first failure and report it, otherwise all framebuffers in the
      order of the views. */
  function CreateAll(views: seq<Handle>, renderPass: Handle, extent: Extent,
                     device: FramebufferCreateInfo -> Result<Handle>): (r: Result<seq<Handle>>)
    ensures r.Ok? <==> forall i :: 0 <= i < |views| ==> device(CreateInfo(renderPass, views[i], extent)).Ok?
    ensures r.Ok? ==> |r.value| == |views|
    ensures r.Ok? ==> forall i :: 0 <= i < |views| ==> device(CreateInfo(renderPass, views[i], extent)) == Ok(r.value[i])
    ensures r.Err? ==> exists i :: 0 <= i < |views| && device(CreateInfo(renderPass, views[i], extent)) == Err(r.error)
                                   && forall j :: 0 <= j < i ==> device(CreateInfo(renderPass, views[j], extent)).Ok?
    decreases |views|
  {
    if views == [] then Ok([])
    else
      match device(CreateInfo(renderPass, views[0], extent))
      case Err(e) => Err(e)
      case Ok(framebuffer) =>
        match CreateAll(views[1..], renderPass, extent, device)
        case Err(e) => Err(e)
        case Ok(rest) => Ok([framebuffer] + rest)
  }

  /** `framebuffer::create` on the handle store: `data.framebuffers` is
      assigned only when every framebuffer was created. */
  function Create(data: Data, device: FramebufferCreateInfo -> Result<Handle>): (r: (Data, Result<()>))
    ensures r.1.Err? ==> r.0 == data
    ensures r.1.Ok? ==> r.0 == data.(framebuffers := r.0.framebuffers)
    ensures r.1.Ok? ==> |r.0.framebuffers| == |data.swapchainImageViews|
  {
    match CreateAll(data.swapchainImageViews, data.renderPass, data.swapchainExtent, device)
    case Err(e) => (data, Err(e))
    case Ok(framebuffers) => (data.(framebuffers := framebuffers), Ok(()))
  }

  /** Framebuffer `i` is the one created for image view `i` alone, with the
      swapchain's render pass, its width and height, and one layer. */
  lemma FramebufferPerView(data: Data, device: FramebufferCreateInfo -> Result<Handle>, i: nat)
    requires Create(data, device).1.Ok? && i < |data.swapchainImageViews|
    ensures var info := FramebufferCreateInfo(data.renderPass, [data.swapchainImageViews[i]],
                                              data.swapchainExtent.width, data.swapchainExtent.height, 1);
      device(info) == Ok(Create(data, device).0.framebuffers[i])
  {
    var r := CreateAll(data.swapchainImageViews, data.renderPass, data.swapchainExtent, device);
    assert device(CreateInfo(data.renderPass, data.swapchainImageViews[i], data.swapchainExtent)) == Ok(r.value[i]);
  }

  /** The failure reported is the first view's that failed, and nothing
      changes in the handle store. */
  lemma FirstFailureWins(data: Data, device: FramebufferCreateInfo -> Result<Handle>, i: nat)
    requires i < |data.swapchainImageViews|
    requires device(CreateInfo(data.renderPass, data.swapchainImageViews[i], data.swapchainExtent)).Err?
    requires forall j :: 0 <= j < i ==> device(CreateInfo(data.renderPass, data.swapchainImageViews[j], data.swapchainExtent)).Ok?
    ensures Create(data, device).0 == data
    ensures Create(data, device).1 == Err(device(CreateInfo(data.renderPass, data.swapchainImageViews[i], data.swapchainExtent)).error)
  {
    var views := data.swapchainImageViews;
    var r := CreateAll(views, data.renderPass, data.swapchainExtent, device);
    var k :| 0 <= k < |views| && device(CreateInfo(data.renderPass, views[k], data.swapchainExtent)) == Err(r.error)
             && forall j :: 0 <= j < k ==> device(CreateInfo(data.renderPass, views[j], data.swapchainExtent)).Ok?;
    assert k == i;
  }
}
