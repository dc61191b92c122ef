/** The frame scheduler of `App` (src/app.rs) as functions on a value.

    `State` is a snapshot of everything `render`, `recreate_swapchain`,
    `destroy` and `destroy_swapchain` read or write, together with the log
    of driver calls made so far.  The class `App.App` is proved to change
    its fields exactly as these functions say. */
module Scheduler {
  import opened Vk
  import Defines

  const N: nat := Defines.MAX_FRAMES_IN_FLIGHT

  /** Everything that depends on the swapchain and is rebuilt together. */
  datatype Chain = Chain(
    swapchain: Handle,
    format: nat,
    extent: Extent,
    images: seq<Handle>,
    views: seq<Handle>,
    renderPass: Handle,
    pipelineLayout: Handle,
    pipeline: Handle,
    framebuffers: seq<Handle>,
    commandBuffers: seq<Handle>)

  /** One view, one framebuffer and one command buffer per image, and
      distinct command buffers (they are separate allocations). */
  predicate ChainValid(c: Chain)
  {
    && |c.views| == |c.images|
    && |c.framebuffers| == |c.images|
    && |c.commandBuffers| == |c.images|
    && forall i, j :: 0 <= i < j < |c.commandBuffers| ==> c.commandBuffers[i] != c.commandBuffers[j]
  }

  datatype State = State(
    frame: nat,
    resized: bool,
    inFlightFences: seq<Handle>,
    imageAvailableSemaphores: seq<Handle>,
    renderFinishedSemaphores: seq<Handle>,
    imagesInFlight: seq<Handle>,
    chain: Chain,
    commandPool: Handle,
    graphicsQueue: Handle,
    presentQueue: Handle,
    surface: Handle,
    messenger: Handle,
    vertexBuffer: Handle,
    vertexBufferMemory: Handle,
    calls: seq<Call>)

  /** The scheduler's invariant: the current slot is one of the N slots,
      each slot has its three primitives (fences are real objects), the
      images-in-flight table has one entry per swapchain image, and every
      entry is either null or the fence of some slot. */
  predicate Valid(s: State)
  {
    && s.frame < N
    && |s.inFlightFences| == N
    && |s.imageAvailableSemaphores| == N
    && |s.renderFinishedSemaphores| == N
    && NULL !in s.inFlightFences
    && ChainValid(s.chain)
    && |s.imagesInFlight| == |s.chain.images|
    && forall k :: 0 <= k < |s.imagesInFlight| ==>
         s.imagesInFlight[k] == NULL || s.imagesInFlight[k] in s.inFlightFences
  }

  /** Outcome of `acquire_next_image_khr`. */
  datatype Acquire = Acquired(imageIndex: nat) | AcquireOutOfDate | AcquireFailed
  /** Outcome of `queue_present_khr`. */
  datatype Present = Presented | Suboptimal | PresentOutOfDate | PresentFailed
  /** Outcome of the swapchain, view, render-pass, pipeline, framebuffer and
      command-buffer builders run by `recreate_swapchain`. */
  datatype Rebuild = Rebuilt(chain: Chain) | RebuildFailed

  /** What the driver answers during one call of `render`. */
  datatype FrameInput = FrameInput(acquire: Acquire, present: Present, rebuild: Rebuild)

  /** What the driver guarantees: an acquired index names an existing
      image, and a rebuilt chain is well formed. */
  predicate Admissible(s: State, input: FrameInput)
  {
    && (input.acquire.Acquired? ==> input.acquire.imageIndex < |s.chain.images|)
    && (input.rebuild.Rebuilt? ==> ChainValid(input.rebuild.chain))
  }

  datatype Step = Step(state: State, result: Result<()>)

  /** `Vec::resize(n, fill)`: truncate or pad with `fill`. */
  function Resize(s: seq<Handle>, n: nat, fill: Handle): (r: seq<Handle>)
    ensures |r| == n
    ensures forall k :: 0 <= k < n && k < |s| ==> r[k] == s[k]
    ensures forall k :: |s| <= k < n ==> r[k] == fill
    decreases n - |s|
  {
    if n <= |s| then s[..n] else Resize(s + [fill], n, fill)
  }

  /** Kinds of objects that are destroyed one handle per call. */
  predicate OneByOne(kind: Kind)
  {
    kind in {Framebuffer, ImageView, Fence, Semaphore}
  }

  /** The call that destroys one object of such a kind. */
  function Destroy(kind: Kind, h: Handle): (r: Call)
    requires OneByOne(kind)
    ensures Released(r) == [Object(kind, h)]
  {
    match kind
    case Framebuffer => DestroyFramebuffer(h)
    case ImageView => DestroyImageView(h)
    case Fence => DestroyFence(h)
    case Semaphore => DestroySemaphore(h)
  }

  /** One destroy call per handle, in order (`iter().for_each(destroy)`). */
  function Each(kind: Kind, hs: seq<Handle>): (r: seq<Call>)
    requires OneByOne(kind)
    ensures |r| == |hs|
    ensures forall k :: 0 <= k < |hs| ==> r[k] == Destroy(kind, hs[k])
  {
    if hs == [] then [] else [Destroy(kind, hs[0])] + Each(kind, hs[1..])
  }

  /** Destroying one more handle appends one more call. */
  lemma {:induction false} EachSnoc(kind: Kind, hs: seq<Handle>, h: Handle)
    requires OneByOne(kind)
    ensures Each(kind, hs + [h]) == Each(kind, hs) + [Destroy(kind, h)]
    decreases |hs|
  {
    if hs == [] {
      assert [h][1..] == [];
    } else {
      assert (hs + [h])[1..] == hs[1..] + [h];
      EachSnoc(kind, hs[1..], h);
    }
  }

  /** Destroying the handles of a prefix, one more at a time. */
  lemma EachPrefix(kind: Kind, hs: seq<Handle>, i: nat)
    requires OneByOne(kind) && i < |hs|
    ensures Each(kind, hs[..i + 1]) == Each(kind, hs[..i]) + [Destroy(kind, hs[i])]
  {
    assert hs[..i + 1] == hs[..i] + [hs[i]];
    EachSnoc(kind, hs[..i], hs[i]);
  }

  /** Calls that neither hand work to a queue nor wait for the device. */
  predicate Quiet(c: Call)
  {
    !c.QueueSubmit? && !c.QueuePresent? && !c.DeviceWaitIdle?
  }

  /** The calls `destroy_swapchain` makes; all of them are quiet. */
  function DestroySwapchainCalls(pool: Handle, c: Chain): (r: seq<Call>)
    ensures forall k :: 0 <= k < |r| ==> Quiet(r[k])
  {
    [FreeCommandBuffers(pool, c.commandBuffers)]
    + Each(Framebuffer, c.framebuffers)
    + [DestroyPipeline(c.pipeline)]
    + [DestroyPipelineLayout(c.pipelineLayout)]
    + [DestroyRenderPass(c.renderPass)]
    + Each(ImageView, c.views)
    + [DestroySwapchain(c.swapchain)]
  }

  /** The calls `recreate_swapchain` makes before rebuilding: wait for the
      device to go idle, then destroy the chain. */
  function RecreateCalls(s: State): (r: seq<Call>)
    ensures |r| > 0 && r[0] == DeviceWaitIdle
  {
    [DeviceWaitIdle] + DestroySwapchainCalls(s.commandPool, s.chain)
  }

  /** Those calls wait for the device once and hand no work to a queue. */
  lemma RecreateCallsWaitOnce(s: State)
    ensures NoQueueWork(RecreateCalls(s), 0)
    ensures Recreations(RecreateCalls(s)) == 1
  {
    var destroyed := DestroySwapchainCalls(s.commandPool, s.chain);
    var r := [DeviceWaitIdle] + destroyed;
    assert forall k :: 1 <= k < |r| ==> r[k] == destroyed[k - 1];
    assert DeviceWaitIdle !in destroyed by {
      forall k | 0 <= k < |destroyed| ensures destroyed[k] != DeviceWaitIdle {
        assert Quiet(destroyed[k]);
      }
    }
    assert multiset(r) == multiset{DeviceWaitIdle} + multiset(destroyed);
  }

  /** `recreate_swapchain`: wait for the device, tear down the chain, and on
      success install the rebuilt chain and resize the images-in-flight
      table to the new image count, padding with null (`Resize`). */
  function Recreate(s: State, rebuild: Rebuild): (r: Step)
    requires Valid(s)
    requires rebuild.Rebuilt? ==> ChainValid(rebuild.chain)
    ensures Valid(r.state)
    ensures r.state.calls == s.calls + RecreateCalls(s)
    ensures r.result.Ok? <==> rebuild.Rebuilt?
    // a failed rebuild is reported and changes nothing but the log
    ensures rebuild.RebuildFailed? ==> r.state == s.(calls := r.state.calls)
    ensures rebuild.Rebuilt? ==>
      r.state == s.(calls := r.state.calls, chain := rebuild.chain,
                    imagesInFlight := Resize(s.imagesInFlight, |rebuild.chain.images|, NULL))
  {
    var torn := s.(calls := s.calls + RecreateCalls(s));
    match rebuild
    case RebuildFailed => Step(torn, Err(DeviceError))
    case Rebuilt(c) =>
      Step(torn.(chain := c, imagesInFlight := Resize(s.imagesInFlight, |c.images|, NULL)), Ok(()))
  }

  /** The slot that follows `frame` in rotation. */
  function NextFrame(frame: nat): (r: nat)
    ensures r < N
  {
    (frame + 1) % N
  }

  /** `SUBOPTIMAL` and `OUT_OF_DATE` on present both ask for a new swapchain. */
  predicate Changed(p: Present)
  {
    p == Suboptimal || p == PresentOutOfDate
  }

  /** Whether a call hands work to a queue. */
  predicate IsSubmitOrPresent(c: Call)
  {
    c.QueueSubmit? || c.QueuePresent?
  }

  /** No call from position `from` on hands work to a queue. */
  predicate NoQueueWork(cs: seq<Call>, from: nat)
  {
    forall j :: from <= j < |cs| ==> !IsSubmitOrPresent(cs[j])
  }

  /** Two stretches without queue work make one. */
  lemma NoQueueWorkJoins(cs: seq<Call>, cs': seq<Call>, cs'': seq<Call>)
    requires cs <= cs' <= cs''
    requires NoQueueWork(cs', |cs|) && NoQueueWork(cs'', |cs'|)
    ensures NoQueueWork(cs'', |cs|)
  {
    forall j | |cs| <= j < |cs'| ensures !IsSubmitOrPresent(cs''[j]) {
      assert cs''[j] == cs'[j];
    }
  }

  lemma NoQueueWorkAppend(cs: seq<Call>, tail: seq<Call>)
    requires NoQueueWork(tail, 0)
    ensures NoQueueWork(cs + tail, |cs|)
  {
    forall j | |cs| <= j < |cs + tail| ensures !IsSubmitOrPresent((cs + tail)[j]) {
      assert (cs + tail)[j] == tail[j - |cs|];
    }
  }

  /** Number of device-idle waits in a log: within `render`, each swapchain
      recreation makes exactly one and nothing else makes any. */
  function Recreations(cs: seq<Call>): nat
  {
    multiset(cs)[DeviceWaitIdle]
  }

  /** Steps 1 and 2 of a frame: wait on the slot's fence, then acquire an
      image signalling the slot's image-available semaphore. */
  function BeginFrame(s: State): (r: State)
    requires Valid(s)
    ensures Valid(r) && r == s.(calls := r.calls)
    ensures |r.calls| == |s.calls| + 2 && s.calls <= r.calls
    ensures r.calls[|s.calls|] == WaitForFences(s.inFlightFences[s.frame])
    ensures r.calls[|s.calls| + 1] == AcquireNextImage(s.chain.swapchain, s.imageAvailableSemaphores[s.frame])
  {
    s.(calls := s.calls + [WaitForFences(s.inFlightFences[s.frame])]
                        + [AcquireNextImage(s.chain.swapchain, s.imageAvailableSemaphores[s.frame])])
  }

  /** The wait and the acquire hand no work to a queue and do not wait for
      the device. */
  lemma BeginFrameIsQuiet(s: State)
    requires Valid(s)
    ensures NoQueueWork(BeginFrame(s).calls, |s.calls|)
    ensures Recreations(BeginFrame(s).calls) == Recreations(s.calls)
  {
    var r := BeginFrame(s);
    assert r.calls == s.calls + r.calls[|s.calls|..];
  }

  /** Steps 3 to 5 of a frame that acquired image `i`: cross-wait on the
      fence recorded for the image if there is one, record the slot's fence
      for the image, reset that fence, submit the image's command buffer
      with the slot's semaphores, and present the image. */
  function SubmitFrame(s: State, i: nat): (r: State)
    requires Valid(s) && i < |s.chain.images|
    ensures Valid(r)
    ensures r == s.(imagesInFlight := r.imagesInFlight, calls := r.calls)
    // only the acquired image's entry changes, and it now holds the slot's fence
    ensures r.imagesInFlight == s.imagesInFlight[i := s.inFlightFences[s.frame]]
    ensures
      var held := s.imagesInFlight[i];
      var fence := s.inFlightFences[s.frame];
      var signal := s.renderFinishedSemaphores[s.frame];
      var p := |s.calls| + (if held == NULL then 0 else 1);
      && |r.calls| == p + 3 && s.calls <= r.calls
      // the old fence is waited on before the entry is overwritten and before the reset
      && (held != NULL ==> r.calls[|s.calls|] == WaitForFences(held))
      && r.calls[p] == ResetFences(fence)
      && r.calls[p + 1] == QueueSubmit(s.graphicsQueue, s.chain.commandBuffers[i],
                                       s.imageAvailableSemaphores[s.frame], COLOR_ATTACHMENT_OUTPUT, signal, fence)
      && r.calls[p + 2] == QueuePresent(s.presentQueue, s.chain.swapchain, i, signal)
  {
    var fence := s.inFlightFences[s.frame];
    var held := s.imagesInFlight[i];
    var waited := if held != NULL then s.calls + [WaitForFences(held)] else s.calls;
    var signal := s.renderFinishedSemaphores[s.frame];
    s.(imagesInFlight := s.imagesInFlight[i := fence],
       calls := waited
         + [ResetFences(fence)]
         + [QueueSubmit(s.graphicsQueue, s.chain.commandBuffers[i], s.imageAvailableSemaphores[s.frame],
                        COLOR_ATTACHMENT_OUTPUT, signal, fence)]
         + [QueuePresent(s.presentQueue, s.chain.swapchain, i, signal)])
  }

  /** Submitting and presenting does not wait for the device. */
  lemma SubmitFrameIsNotIdle(s: State, i: nat)
    requires Valid(s) && i < |s.chain.images|
    ensures Recreations(SubmitFrame(s, i).calls) == Recreations(s.calls)
  {
    var fence := s.inFlightFences[s.frame];
    var held := s.imagesInFlight[i];
    var waited := if held != NULL then s.calls + [WaitForFences(held)] else s.calls;
    assert Recreations(waited) == Recreations(s.calls);
  }

  /** Whether step 6 recreates the swapchain: a resize is pending or the
      present reported a stale swapchain. */
  predicate Rebuilds(s: State, present: Present)
  {
    s.resized || Changed(present)
  }

  /** Steps 6 and 7 after a present: recreate when `Rebuilds`, otherwise
      fail on a present error; advance the slot unless an error is
      returned. */
  function FinishFrame(s: State, present: Present, rebuild: Rebuild): (r: Step)
    requires Valid(s)
    requires rebuild.Rebuilt? ==> ChainValid(rebuild.chain)
    ensures Valid(r.state) && s.calls <= r.state.calls
    ensures r.result.Err? <==> if Rebuilds(s, present) then rebuild.RebuildFailed? else present == PresentFailed
    ensures r.state.frame == if r.result.Ok? then NextFrame(s.frame) else s.frame
    // without a recreation nothing but the slot changes
    ensures !Rebuilds(s, present) ==> r.state == s.(frame := r.state.frame)
    // a recreation runs with the resize flag cleared
    ensures Rebuilds(s, present) ==>
      r.state == Recreate(s.(resized := false), rebuild).state.(frame := r.state.frame)
  {
    if Rebuilds(s, present) then
      var recreated := Recreate(s.(resized := false), rebuild);
      if recreated.result.Err? then recreated
      else Step(recreated.state.(frame := NextFrame(s.frame)), Ok(()))
    else if present == PresentFailed then
      Step(s, Err(DeviceError))
    else
      Step(s.(frame := NextFrame(s.frame)), Ok(()))
  }

  /** `render`: one frame of the acquire, submit, present protocol. */
  function Render(s: State, input: FrameInput): (r: Step)
    requires Valid(s) && Admissible(s, input)
    ensures Valid(r.state) && s.calls <= r.state.calls
    // the slot advances exactly when a frame that was presented returns Ok
    ensures r.state.frame == if r.result.Ok? && input.acquire.Acquired? then NextFrame(s.frame) else s.frame
  {
    var acquired := BeginFrame(s);
    match input.acquire
    case AcquireOutOfDate => Recreate(acquired, input.rebuild)
    case AcquireFailed => Step(acquired, Err(DeviceError))
    case Acquired(i) => FinishFrame(SubmitFrame(acquired, i), input.present, input.rebuild)
  }

  /** `render` on each outcome of the acquire, as a composition of steps. */
  lemma RenderCases(s: State, input: FrameInput)
    requires Valid(s) && Admissible(s, input)
    ensures input.acquire.AcquireOutOfDate? ==> Render(s, input) == Recreate(BeginFrame(s), input.rebuild)
    ensures input.acquire.AcquireFailed? ==> Render(s, input) == Step(BeginFrame(s), Err(DeviceError))
    ensures input.acquire.Acquired? ==>
      Render(s, input) == FinishFrame(SubmitFrame(BeginFrame(s), input.acquire.imageIndex), input.present, input.rebuild)
  {
  }

  /** The calls a recreation appends contain one device-idle wait and no
      submission or presentation. */
  lemma RecreateOnlyWaitsAndReleases(s: State, rebuild: Rebuild)
    requires Valid(s) && (rebuild.Rebuilt? ==> ChainValid(rebuild.chain))
    ensures var r := Recreate(s, rebuild).state;
      && Recreations(r.calls) == Recreations(s.calls) + 1
      && NoQueueWork(r.calls, |s.calls|)
  {
    var tail := RecreateCalls(s);
    RecreateCallsWaitOnce(s);
    assert Recreate(s, rebuild).state.calls == s.calls + tail;
    NoQueueWorkAppend(s.calls, tail);
  }

  /** Every frame starts by waiting on the slot's fence and then acquiring
      an image that signals the slot's (not the image's) semaphore. */
  lemma RenderWaitsThenAcquires(s: State, input: FrameInput)
    requires Valid(s) && Admissible(s, input)
    ensures var r := Render(s, input);
      && |r.state.calls| >= |s.calls| + 2
      && r.state.calls[|s.calls|] == WaitForFences(s.inFlightFences[s.frame])
      && r.state.calls[|s.calls| + 1] == AcquireNextImage(s.chain.swapchain, s.imageAvailableSemaphores[s.frame])
  {
    RenderCases(s, input);
    var acquired := BeginFrame(s);
    var r := Render(s, input);
    var n := |s.calls|;
    if input.acquire.Acquired? {
      var submitted := SubmitFrame(acquired, input.acquire.imageIndex);
      assert r.state.calls[n] == submitted.calls[n] == acquired.calls[n];
      assert r.state.calls[n + 1] == submitted.calls[n + 1] == acquired.calls[n + 1];
    } else if input.acquire.AcquireOutOfDate? {
      assert r.state.calls[n] == acquired.calls[n];
      assert r.state.calls[n + 1] == acquired.calls[n + 1];
    }
  }

  /** `OUT_OF_DATE` on acquire: exactly one recreation and no submission or
      presentation; neither the slot nor the resize flag changes. */
  lemma AcquireOutOfDateOnlyRecreates(s: State, input: FrameInput)
    requires Valid(s) && Admissible(s, input) && input.acquire.AcquireOutOfDate?
    ensures var r := Render(s, input);
      && r.state.frame == s.frame && r.state.resized == s.resized
      && Recreations(r.state.calls) == Recreations(s.calls) + 1
      && NoQueueWork(r.state.calls, |s.calls|)
      && (r.result.Err? <==> input.rebuild.RebuildFailed?)
  {
    RenderCases(s, input);
    var acquired := BeginFrame(s);
    BeginFrameIsQuiet(s);
    RecreateOnlyWaitsAndReleases(acquired, input.rebuild);
    NoQueueWorkJoins(s.calls, acquired.calls, Render(s, input).state.calls);
  }

  /** Any other acquire error is returned with no change beyond the fence
      wait and the acquire call. */
  lemma AcquireFailedChangesNothing(s: State, input: FrameInput)
    requires Valid(s) && Admissible(s, input) && input.acquire.AcquireFailed?
    ensures var r := Render(s, input);
      && r.result == Err(DeviceError)
      && |r.state.calls| == |s.calls| + 2
      && r.state == s.(calls := r.state.calls)
  {
    RenderCases(s, input);
  }

  /** After a present, the swapchain is recreated (once) exactly when a
      resize was pending or the present reported a stale swapchain, which
      clears the resize flag.  An error is returned exactly when that
      recreation fails, or, when there is none, when the present failed:
      a present error is swallowed while a resize is pending. */
  lemma FinishFrameRecreatesOnce(s: State, present: Present, rebuild: Rebuild)
    requires Valid(s) && (rebuild.Rebuilt? ==> ChainValid(rebuild.chain))
    ensures var r := FinishFrame(s, present, rebuild);
      && Recreations(r.state.calls) == Recreations(s.calls) + (if Rebuilds(s, present) then 1 else 0)
      && NoQueueWork(r.state.calls, |s.calls|)
      && r.state.resized == false
  {
    if Rebuilds(s, present) {
      RecreateOnlyWaitsAndReleases(s.(resized := false), rebuild);
    }
  }

  /** The same, seen from `render`: a frame that acquired an image submits
      and presents once, then recreates at most once. */
  lemma PresentRecreatesOnce(s: State, input: FrameInput)
    requires Valid(s) && Admissible(s, input) && input.acquire.Acquired?
    ensures var submitted := SubmitFrame(BeginFrame(s), input.acquire.imageIndex);
      var r := Render(s, input);
      && Recreations(r.state.calls) == Recreations(s.calls) + (if Rebuilds(submitted, input.present) then 1 else 0)
      && r.state.resized == false
      && (r.result.Err? <==>
            if s.resized || Changed(input.present) then input.rebuild.RebuildFailed? else input.present == PresentFailed)
  {
    RenderCases(s, input);
    var acquired := BeginFrame(s);
    var submitted := SubmitFrame(acquired, input.acquire.imageIndex);
    BeginFrameIsQuiet(s);
    SubmitFrameIsNotIdle(acquired, input.acquire.imageIndex);
    FinishFrameRecreatesOnce(submitted, input.present, input.rebuild);
  }
}
