# rust_vulkan frame scheduler, verified model

This project models, in Dafny, the bookkeeping at the heart of the
`rust_vulkan` triangle renderer. The renderer is a Rust application on
`vulkanalia` and `winit`. The model covers six pieces:

- **The frame loop of `App`.** `render`, `recreate_swapchain`, `destroy` and
  `destroy_swapchain` cycle through `MAX_FRAMES_IN_FLIGHT = 2` frame slots.
  Each slot has an image-available semaphore, a render-finished semaphore
  and an in-flight fence. The images-in-flight table remembers which fence
  last used each swapchain image. When the swapchain goes stale, the
  loop tears it down and rebuilds it.
- **The event closure of `main`.** The flags `destroying`, `minimized` and
  `app.resized` gate rendering and destruction.
- **The vertex layout and the vertex buffer.** This covers memory-type
  selection, the buffer size and the copy.
- **Physical-device selection.**
- **Logical-device creation.**
- **Framebuffer creation.**

Every driver object is a natural-number handle, and 0 is the null handle.
The driver is not modelled as code. Each call the application makes into
it is recorded in a call log (`Vk.Call`). Each answer the driver gives is
a parameter: an acquire outcome, a present outcome, the chain the builders
rebuild, the devices it enumerates, and so on. That makes ordering facts
provable, such as "wait before reset before submit", "destroy in dependency
order" and "never resubmit a pending command buffer".

Modules:

- `Vk`: handles, results, the call log and the kinds of objects, with
  their dependency order.
- `Defines`: `src/app/app_defines.rs`.
- `AppData`: the handle store `Data` (`src/app/app_data.rs`).
- `Scheduler`: `render`, `recreate_swapchain` and `destroy_swapchain` as
  functions on a value `State`. It holds the per-call properties.
- `FrameSafety`: a theorem over any run of frames. A command buffer is
  never submitted again until its previous submission was waited for,
  either on its fence or by a device-idle wait.
- `Teardown`: what `destroy` releases. Every owned object is released
  exactly as often as the handle store holds it (no leak, no extra
  release), and in dependency order. The
  debug messenger is released exactly when validation is enabled.
- `App`: the class `App`. Its methods update the fields in place, as the
  Rust methods do, and are proved to do exactly what `Scheduler` and
  `Teardown` specify.
- `Events`: the closure as a function `React` with lemmas over event
  sequences, and as the class `EventLoop`, proved against `React`.
- `VertexBuffer`, `PhysicalDevices`, `LogicalDevice`, `Framebuffers`: the
  builders. They take the handle store `Data` as a value and return it
  updated, since the Rust functions fill it through `&mut`.

## Model

| member | source | states |
|---|---|---|
| Scheduler.Resize | src/app.rs:149 | the new table has length `n`; as `Vec::resize` does, entries below `min(old, n)` are kept rather than cleared; new entries are null |
| Scheduler.Destroy | src/app.rs:159-161 | the destroy call for a handle releases exactly that one object |
| Scheduler.Each | src/app.rs:177 | `iter().for_each(destroy)` makes one destroy call per handle, in order |
| Scheduler.DestroySwapchainCalls | src/app.rs:175-183 | no call of `destroy_swapchain` submits, presents or waits for the device |
| Scheduler.RecreateCalls | src/app.rs:136-137 | recreation starts with a device-idle wait |
| Scheduler.RecreateCallsWaitOnce | src/app.rs:136-137 | recreation's calls contain exactly one device-idle wait and no submission or presentation |
| Scheduler.Recreate | src/app.rs:135-152 | keeps the scheduler invariant; appends the wait and the teardown; `Ok` iff the rebuild succeeded; on failure nothing but the log changes; on success the rebuilt chain is installed and the table is resized to the new image count |
| Scheduler.NextFrame | src/app.rs:130 | the next slot is below `MAX_FRAMES_IN_FLIGHT` |
| Scheduler.BeginFrame | src/app.rs:76-85 | waits on the slot's fence, then acquires with the slot's image-available semaphore; nothing else changes |
| Scheduler.BeginFrameIsQuiet | src/app.rs:76-85 | the wait and the acquire neither hand work to a queue nor wait for the device |
| Scheduler.SubmitFrame | src/app.rs:93-121 | a non-null table entry is waited on first; only the acquired image's entry changes, to the slot's fence; the fence is reset before the submit; the submit uses the image's command buffer and the slot's semaphores; the present waits on the slot's render-finished semaphore |
| Scheduler.SubmitFrameIsNotIdle | src/app.rs:93-121 | submitting and presenting do not wait for the device |
| Scheduler.FinishFrame | src/app.rs:121-132 | recreates when a resize is pending or the present was suboptimal or out of date; otherwise fails on a present error; advances the slot exactly on `Ok` |
| Scheduler.Render | src/app.rs:75-133 | keeps the invariant; the slot advances exactly when an acquired frame returns `Ok` |
| Scheduler.RecreateOnlyWaitsAndReleases | src/app.rs:135-152 | a recreation adds one device-idle wait and no queue work |
| Scheduler.RenderWaitsThenAcquires | src/app.rs:76-85 | every frame begins with the wait on `in_flight_fences[frame]`, then the acquire signalling `image_available_semaphores[frame]`, indexed by slot |
| Scheduler.AcquireOutOfDateOnlyRecreates | src/app.rs:89 | acquire `OUT_OF_DATE` recreates exactly once, submits and presents nothing, and leaves the slot and the resize flag as they were: this path does not clear `resized` |
| Scheduler.AcquireFailedChangesNothing | src/app.rs:90 | any other acquire error returns `Err` and changes nothing beyond the wait and the acquire |
| Scheduler.FinishFrameRecreatesOnce | src/app.rs:122-128 | after a present, recreates exactly once iff a resize is pending or the swapchain changed, clears the resize flag, and hands no more work to a queue |
| Scheduler.PresentRecreatesOnce | src/app.rs:121-130 | an acquired frame recreates at most once; `Err` iff the recreation failed or, without one, the present failed, so a present error is swallowed while a resize is pending |
| FrameSafety.QuietCallsKeepSafe | src/app.rs:76-85 | appending calls without queue work keeps the no-resubmit invariant |
| FrameSafety.IdleWaitKeepsSafe | src/app.rs:136 | a device-idle wait leaves no submission pending |
| FrameSafety.SubmitFrameSubmitsOnce | src/app.rs:100-112 | a frame submits once, with the image's command buffer and the slot's non-null fence |
| FrameSafety.SubmitFrameKeepsPairsSafe | src/app.rs:93-112 | before the new submission there is a wait for the previous submission of the same command buffer |
| FrameSafety.SubmitFrameKeepsTracked | src/app.rs:93-98 | every pending submission stays recorded in the images-in-flight table |
| FrameSafety.SubmitFrameKeepsSafe | src/app.rs:93-112 | submitting keeps the no-resubmit invariant |
| FrameSafety.RecreateKeepsSafe | src/app.rs:135-152 | a recreation leaves the log safe |
| FrameSafety.FinishFrameKeepsSafe | src/app.rs:121-132 | the present and optional recreation keep the log safe |
| FrameSafety.RenderKeepsSafe | src/app.rs:75-133 | one call of `render` keeps the log safe, on every path |
| FrameSafety.RunKeepsSafe | src/app.rs:75-133 | any run of frames keeps the log safe |
| FrameSafety.NeverResubmitsPending | src/app.rs:93-112 | from an empty log, no run submits a command buffer again before its previous submission was waited for |
| Teardown.DestroyCalls | src/app.rs:154-173 | `destroy`'s calls are defined in the code's order: the wait, the chain teardown, fences, render-finished and image-available semaphores, memory, buffer, pool, device, surface, the messenger when validating, and the instance; the contract states that they start with a device-idle wait |
| Teardown.DestroySwapchainReleasesChain | src/app.rs:175-183 | `destroy_swapchain` releases exactly the chain's objects, as a multiset: each handle as often as the chain holds it |
| Teardown.DestroySwapchainRespectsDependencies | src/app.rs:175-183 | `destroy_swapchain` never destroys an object while one that refers to it is alive |
| Teardown.DestroyReleases | src/app.rs:154-173 | the objects `destroy` releases, in order |
| Teardown.DestroyReleasesAllOwned | src/app.rs:154-173 | `destroy` releases every owned object exactly as often as it is owned: no leak, no double free |
| Teardown.DestroyMessengerOnlyWithValidation | src/app.rs:168-170 | the debug messenger is released iff validation is enabled |
| Teardown.DestroyRespectsDependencies | src/app.rs:154-173 | `destroy` releases objects in dependency order |
| App.App.constructor | src/app.rs:72 | starts at slot 0 with no resize pending, and establishes the scheduler invariant from the sizes the sync objects are created with |
| App.App.Render | src/app.rs:75-133 | the fields change exactly as `Scheduler.Render` says |
| App.App.SubmitAndPresent | src/app.rs:93-121 | the fields change exactly as `Scheduler.SubmitFrame` says |
| App.App.AfterPresent | src/app.rs:122-132 | the fields change exactly as `Scheduler.FinishFrame` says |
| App.App.RecreateSwapchain | src/app.rs:135-152 | the fields change exactly as `Scheduler.Recreate` says |
| App.App.DestroySwapchain | src/app.rs:175-183 | appends exactly `Scheduler.DestroySwapchainCalls` and changes no field |
| App.App.Destroy | src/app.rs:154-173 | appends exactly `Teardown.DestroyCalls` and changes no field |
| App.App.DestroyEach | src/app.rs:159-161 | the loop appends one destroy call per handle, in order |
| Events.RenderGated | src/main.rs:31 | `render` is called iff the event is `MainEventsCleared` and the loop is neither destroying nor minimized |
| Events.PollUnlessClose | src/main.rs:28-44 | every event leaves the control flow at `Poll`, except close, which leaves it at `Exit` |
| Events.ResizeEffect | src/main.rs:33-40 | a zero-sized resize sets `minimized` and leaves `app.resized` alone; any other resize clears `minimized` and sets `app.resized` |
| Events.CloseEffect | src/main.rs:42-46 | close sets `destroying`, asks to exit and destroys the application |
| Events.DestroyingStays | src/main.rs:24-49 | `destroying` is never cleared |
| Events.DestroyingAfterClose | src/main.rs:42-46 | after a close request `destroying` stays set |
| Events.NoRenderAfterClose | src/main.rs:31-46 | no frame is rendered after a close request |
| Events.MinimizedByLastResize | src/main.rs:33-40 | `minimized` tells whether the last resize had a zero width or height |
| Events.MinimizedWithoutResize | src/main.rs:33-40 | with no resize in a sequence of events, `minimized` keeps its starting value |
| Events.EventLoop.constructor | src/main.rs:23-25 | neither flag is set at the start |
| Events.EventLoop.Handle | src/main.rs:27-49 | the flags change as `React` says; on render, close and resize the application changes exactly as `App.Render`, `App.Destroy` and setting `resized` do, and otherwise not at all; the handle store, the physical device included, changes only on render |
| Framebuffers.CreateAll | src/app/framebuffer.rs:7-19 | `Ok` iff every creation succeeds; then one framebuffer per view, in order; otherwise the first failure is reported |
| Framebuffers.Create | src/app/framebuffer.rs:6-22 | `data.framebuffers` is assigned only on success, to one entry per image view; on failure the store is unchanged |
| Framebuffers.FramebufferPerView | src/app/framebuffer.rs:9-15 | framebuffer `i` has the render pass, image view `i` as its only attachment, the swapchain extent and one layer |
| Framebuffers.FirstFailureWins | src/app/framebuffer.rs:7-19 | the error returned is that of the first view whose framebuffer failed, and the store is unchanged |
| VertexBuffer.VertexLayout | src/app/vertex_buffer.rs:21-43 | binding 0, stride `size_of::<Vertex>()`, per-vertex rate; `pos` at location 0, offset 0; `color` at location 1, offset `size_of::<Vec2>()`; the formats match the field sizes and the attributes neither overlap nor leave the vertex |
| VertexBuffer.FindFrom | src/app/vertex_buffer.rs:97-102 | the `find` returns the first index in range whose bit is set and whose flags contain the properties, or none |
| VertexBuffer.MemoryTypeIndex | src/app/vertex_buffer.rs:90-104 | a returned index is below `memory_type_count`, has its bit set and has the properties; otherwise the error is "no suitable memory type" |
| VertexBuffer.MemoryTypeIndexIsFirst | src/app/vertex_buffer.rs:97-103 | the result is `i` iff `i` is suitable and no smaller index is |
| VertexBuffer.Create | src/app/vertex_buffer.rs:47-88 | the buffer is `size_of::<Vertex>() * len` bytes; memory is chosen for both `HOST_COHERENT` and `HOST_VISIBLE`; `Ok` iff every step succeeds; each failure returns that step's error with the fields assigned so far; on success the memory is bound at offset 0, the mapped range is the buffer size, `len` vertices are copied and the memory is unmapped |
| VertexBuffer.BindAndFill | src/app/vertex_buffer.rs:72-85 | bind, map, copy and unmap, in that order, stopping at the first failure |
| PhysicalDevices.CheckExtensionsIff | src/app/physical_device.rs:39-48 | the extension check passes iff every entry of `DEVICE_EXTENSIONS` is among the device's extension names |
| PhysicalDevices.CheckIsSuitable | src/app/physical_device.rs:27-37 | the check passes iff the device has queue families, the extensions and a format and a present mode; the first failing stage, in the order queue families, extensions, support, decides the error |
| PhysicalDevices.FirstFrom | src/app/physical_device.rs:12-21 | the first device, in enumeration order, that passes the check, or none |
| PhysicalDevices.Pick | src/app/physical_device.rs:11-25 | stores the first passing device and returns `Ok`; skipped devices are never stored; if none passes, or the enumeration fails, returns `Err` with the store unchanged |
| PhysicalDevices.PickedIsFirstSuitable | src/app/physical_device.rs:11-25 | the chosen device is suitable and every earlier device is not |
| LogicalDevice.QueueInfosOnePerFamily | src/app/logical_device.rs:14-26 | one queue create info per distinct family among graphics and present: one when they are equal, two otherwise, never a duplicate, and no other family |
| LogicalDevice.Create | src/app/logical_device.rs:9-60 | a failed family lookup aborts before any device is created; the create info carries the unique queue infos, the layers and exactly `DEVICE_EXTENSIONS`; on success the graphics and present queues are queue 0 of their families; on failure the store is unchanged |

## Left out

- The Vulkan, `vulkanalia` and `winit` machinery is not modelled: the loader, `Entry`, the instance, surface creation, GPU execution and the event loop that delivers events. Driver calls are entries in a call log, and driver answers are parameters.
- Timeouts and CPU–GPU concurrency are not modelled. A wait is a log entry, not a blocking call.
- The `swapchain`, `pipeline`, `sync`, `command_buffer`, `instance` and `queue_family` modules are outside the modelled core, so format, present-mode, extent and image-count choice are not modelled. Their outcomes are inputs: `Scheduler.Rebuild`, `PhysicalDevices.SwapchainSupport` and the queue-family lookup result.
- The sizing done by `sync::create_sync_objects` is not modelled. It becomes the precondition of `App.App.constructor`.
- `App::create` (src/app.rs:45-73), the sequence of builder calls, is not modelled. The builders are modelled one by one, and the constructor takes their result.
- `src/app/descriptor.rs` is not part of this model. No `mod` declaration includes it in the build.
- Floating-point data is not modelled: vertex positions and colours, the queue priority `1.0` and the `glm` types. Only their sizes matter.
- The bytes that `memcpy` copies and the mapped pointer are not modelled. The copy is a log entry with its element count.
- Logging is not modelled.
- App.App.Render: a failure of `wait_for_fences`, `reset_fences` or `queue_submit` (src/app.rs:78, 95, 110, 112) is assumed not to happen. On each of those the code returns the error early.
- App.App.RecreateSwapchain: a failure of `device_wait_idle` (src/app.rs:136) is assumed not to happen.
- App.App.RecreateSwapchain: when a builder fails, the model keeps the old chain's handles in the store. In the code the store would hold whatever the builders had assigned before the failure.
- App.App.Destroy: the `unwrap` of `device_wait_idle` (src/app.rs:155) is assumed to succeed.
- Device and instance objects carry no handle in the model. The Rust `App` holds them as `Device` and `Instance` values, not in `Data`, and the model has no field for them.
- The iteration order of the `HashSet` of queue families (src/app/logical_device.rs:14-26) is unspecified. `LogicalDevice.Create` takes it as a parameter: any duplicate-free listing of the set.
- `VALIDATION_ENABLED` is `cfg!(debug_assertions)`. It is a boolean parameter fixed at construction.
- `render` and `recreate_swapchain` take a recreation outcome (`Scheduler.Rebuild`) in place of the new image count. The count is the length of the rebuilt chain's image list.
- Events.EventLoop.Handle: when `render` returns `Err`, the code's `unwrap` aborts the program. The model returns that result to the caller instead.
- The winit guarantee that no event follows `ControlFlow::Exit` is not modelled. The lemmas over event sequences hold for any sequence.
