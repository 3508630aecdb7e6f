/**
 * SampleAppAndroid: the object that glues a rendering session to the Android
 * activity lifecycle. Its methods update its fields in place; each is proved
 * to follow the matching transition of module Lifecycle, and the ghost field
 * `trace` records every collaborator call in order.
 */
module Android {
  import opened Wrappers
  import opened Lifecycle

  class SampleAppAndroid {
    const device: DeviceType
    var paused: bool
    var swapChain: Option<SwapChain>
    var renderDeviceGles: Option<GlesDevice>
    var windowWidth: nat
    var windowHeight: nat
    var preTransform: SurfaceTransform
    ghost var trace: seq<Call>

    /** The fields, as a Lifecycle state. */
    ghost function Session(): State
      reads this
    {
      State(device, paused, swapChain, renderDeviceGles, windowWidth, windowHeight, preTransform)
    }

    constructor (device: DeviceType)
      ensures this.device == device
      ensures Session() == Created(device) && trace == []
    {
      this.device := device;
      paused := true;
      swapChain := None;
      renderDeviceGles := None;
      windowWidth, windowHeight, preTransform := 0, 0, Optimal;
      trace := [];
    }

    /**
     * One frame. `desc` is the swap chain descriptor as it reads after the
     * re-fit request; it is consulted only when drawing is possible.
     */
    method DrawFrame(desc: SwapChainDesc)
      modifies this
      ensures old(paused) || old(swapChain).None? ==> unchanged(this)
      ensures Session() == AfterDrawFrame(old(Session()), desc).post
      ensures trace == old(trace) + AfterDrawFrame(old(Session()), desc).calls
    {
      if paused || swapChain.None? {
        return;
      }
      trace := trace + [ResizeSwapChain(swapChain.value)];
      if windowWidth != desc.width || windowHeight != desc.height || preTransform != desc.preTransform {
        windowWidth := desc.width;
        windowHeight := desc.height;
        preTransform := desc.preTransform;
        trace := trace + [WindowResize(windowWidth, windowHeight)];
      }
      trace := trace + [BaseDrawFrame];
    }

    /**
     * Start-up. The engine yields `chain` with descriptor `desc`; the GLES
     * interface query yields `queried`.
     */
    method Initialize(chain: SwapChain, desc: SwapChainDesc, queried: Option<GlesDevice>)
      modifies this
      ensures !paused && swapChain == Some(chain)
      ensures windowWidth == desc.width && windowHeight == desc.height && preTransform == desc.preTransform
      ensures Session() == AfterInitialize(old(Session()), chain, desc, queried).post
      ensures trace == old(trace)
    {
      swapChain := Some(chain);
      windowWidth := desc.width;
      windowHeight := desc.height;
      preTransform := desc.preTransform;
      match device {
        case Vulkan =>
        case Gles =>
          renderDeviceGles := queried;
      }
      paused := false;
    }

    /**
     * A new window is available. Vulkan: swap chain creation yields `created`.
     * GLES: the device's Resume returns `deviceCode`.
     */
    method Resume(window: NativeWindow, created: Option<SwapChain>, deviceCode: int) returns (code: int)
      requires CanResume(Session())
      modifies this
      ensures Session() == AfterResume(old(Session()), window, created, deviceCode).step.post
      ensures trace == old(trace) + AfterResume(old(Session()), window, created, deviceCode).step.calls
      ensures code == AfterResume(old(Session()), window, created, deviceCode).code
    {
      match device {
        case Vulkan =>
          trace := trace + Released(swapChain);
          swapChain := None;
          trace := trace + [ResetSwapChain(None), IdleGpu];
          swapChain := created;
          trace := trace + [CreateSwapChain(window, created), ResetSwapChain(swapChain)];
          paused := swapChain.Some?;
          code := if paused then EglSuccess else EglNotInitialized;
        case Gles =>
          var ret := deviceCode;
          trace := trace + [DeviceResume(window, ret)];
          paused := ret == EglSuccess;
          code := ret;
      }
    }

    /** The window is going away. */
    method TermDisplay()
      modifies this
      ensures paused
      ensures Session() == AfterTermDisplay(old(Session())).post
      ensures trace == old(trace) + AfterTermDisplay(old(Session())).calls
    {
      paused := true;
      match device {
        case Vulkan =>
          trace := trace + Released(swapChain);
          swapChain := None;
          trace := trace + [ResetSwapChain(None)];
        case Gles =>
          if renderDeviceGles.Some? {
            trace := trace + [DeviceSuspend];
          }
      }
    }

    /** Memory pressure. */
    method TrimMemory()
      modifies this`trace
      ensures Session() == old(Session())
      ensures trace == old(trace) + AfterTrimMemory(old(Session())).calls
    {
      match device {
        case Vulkan =>
        case Gles =>
          if renderDeviceGles.Some? {
            trace := trace + [DeviceInvalidate];
          }
      }
    }
  }
}
