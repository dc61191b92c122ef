/** The application-wide constants. */
module Defines {

  /** Number of frame slots: sets of (image-available semaphore,
      render-finished semaphore, in-flight fence) used in rotation. */
  const MAX_FRAMES_IN_FLIGHT: nat := 2

  const VALIDATION_LAYER: string := "VK_LAYER_KHRONOS_validation"

  /** The device extensions the application requires and enables. */
  const DEVICE_EXTENSIONS: seq<string> := ["VK_KHR_swapchain"]
}
