/**
 * The session state machine of the Android sample application: the fields that
 * SampleAppAndroid keeps (paused flag, swap chain, GLES device interface and the
 * cached surface geometry), and one pure transition per lifecycle operation.
 * Each transition returns the new state together with the ordered list of calls
 * made on collaborators (swap chain, GLES device, sample), so that the order of
 * the calls, and the absence of any other call, can be stated. The class in
 * module Android is proved
 * to follow these transitions.
 */
module Lifecycle {
  import opened Wrappers

  /** The GPU backend family, fixed when the application object is built. */
  datatype DeviceType = Vulkan | Gles

  /** Diligent's SURFACE_TRANSFORM enumeration. */
  datatype SurfaceTransform =
    | Optimal
    | Identity
    | Rotate90
    | Rotate180
    | Rotate270
    | HorizontalMirror
    | HorizontalMirrorRotate90
    | HorizontalMirrorRotate180
    | HorizontalMirrorRotate270

  /** The part of a swap chain descriptor that the session caches. */
  datatype SwapChainDesc = SwapChainDesc(width: nat, height: nat, preTransform: SurfaceTransform)

  /** Identities of the objects the session holds or hands out. */
  datatype SwapChain = SwapChain(id: nat)
  datatype GlesDevice = GlesDevice(id: nat)
  datatype NativeWindow = NativeWindow(id: nat)

  /** EGL status codes returned by Resume. */
  const EglSuccess: int := 0x3000
  const EglNotInitialized: int := 0x3001

  /** A call made on a collaborator of the session. */
  datatype Call =
    | ReleaseSwapChain(chain: SwapChain)                     // m_pSwapChain.Release() on a held chain
    | ResetSwapChain(target: Option<SwapChain>)              // the sample is rebound to a chain or to null
    | IdleGpu                                                // the device waits for the GPU
    | CreateSwapChain(window: NativeWindow, created: Option<SwapChain>)
    | DeviceResume(window: NativeWindow, code: int)          // IRenderDeviceGLES::Resume
    | DeviceSuspend                                          // IRenderDeviceGLES::Suspend
    | DeviceInvalidate                                       // IRenderDeviceGLES::Invalidate
    | ResizeSwapChain(chain: SwapChain)                      // Resize(0, 0, SURFACE_TRANSFORM_OPTIMAL)
    | WindowResize(width: nat, height: nat)                  // the sample's resize notification
    | BaseDrawFrame                                          // SampleApp::DrawFrame

  /** The fields of SampleAppAndroid that the lifecycle operations read and write. */
  datatype State = State(
    device: DeviceType,
    paused: bool,
    swapChain: Option<SwapChain>,
    gles: Option<GlesDevice>,
    width: nat,
    height: nat,
    preTransform: SurfaceTransform)
  {
    /** The cached geometry, in the shape of a descriptor. */
    function Geometry(): SwapChainDesc {
      SwapChainDesc(width, height, preTransform)
    }

    /** DrawFrame does its work only when this holds. */
    predicate CanDraw() {
      !paused && swapChain.Some?
    }
  }

  /** The effect of one operation: the new state and the calls it made, in order. */
  datatype Step = Step(post: State, calls: seq<Call>)

  /** The effect of Resume, which also returns an EGL status code. */
  datatype Resumed = Resumed(step: Step, code: int)

  /** The state right after construction: paused, nothing held, zero geometry. */
  function Created(device: DeviceType): State {
    State(device, true, None, None, 0, 0, Optimal)
  }

  /** The release call that m_pSwapChain.Release() makes, if a chain is held. */
  function Released(chain: Option<SwapChain>): seq<Call> {
    if chain.Some? then [ReleaseSwapChain(chain.value)] else []
  }

  /** Number of resize notifications sent to the sample. */
  function Notifications(calls: seq<Call>): nat {
    if calls == [] then 0
    else (if calls[0].WindowResize? then 1 else 0) + Notifications(calls[1..])
  }

  lemma {:induction false} NotificationsAppend(a: seq<Call>, b: seq<Call>)
    ensures Notifications(a + b) == Notifications(a) + Notifications(b)
    decreases |a|
  {
    if a == [] {
      assert a + b == b;
    } else {
      assert (a + b)[0] == a[0];
      assert (a + b)[1..] == a[1..] + b;
      NotificationsAppend(a[1..], b);
    }
  }

  /**
   * DrawFrame: when drawing is possible, re-fit the swap chain, compare the
   * resulting descriptor `desc` with the cached geometry, update the cache and
   * notify the sample on a change, then run the base frame.
   */
  function AfterDrawFrame(s: State, desc: SwapChainDesc): (r: Step)
    // paused, or no swap chain: no call at all and no field changes
    ensures !s.CanDraw() ==> r == Step(s, [])
    // otherwise the cache ends up equal to the descriptor and nothing else changes
    ensures s.CanDraw() ==>
      r.post == s.(width := desc.width, height := desc.height, preTransform := desc.preTransform)
    // exactly one notification on a change, none otherwise, and it carries the new size
    ensures s.CanDraw() ==> Notifications(r.calls) == (if s.Geometry() == desc then 0 else 1)
    ensures s.CanDraw() && s.Geometry() != desc ==> WindowResize(desc.width, desc.height) in r.calls
    // the re-fit comes first and the base frame last
    ensures s.CanDraw() ==>
      |r.calls| >= 2 && r.calls[0] == ResizeSwapChain(s.swapChain.value) && r.calls[|r.calls| - 1] == BaseDrawFrame
    // and every other call is a notification: no further call happens
    ensures s.CanDraw() ==> |r.calls| == 2 + Notifications(r.calls)
  {
    if !s.CanDraw() then Step(s, [])
    else if s.Geometry() == desc then
      var calls := [ResizeSwapChain(s.swapChain.value), BaseDrawFrame];
      assert Notifications(calls[1..]) == 0 by { assert calls[1..][1..] == []; }
      Step(s, calls)
    else
      var calls := [ResizeSwapChain(s.swapChain.value), WindowResize(desc.width, desc.height), BaseDrawFrame];
      assert Notifications(calls[1..]) == 1 by { assert calls[1..][1..][1..] == []; }
      Step(s.(width := desc.width, height := desc.height, preTransform := desc.preTransform), calls)
  }

  /**
   * Initialize: the engine yields the swap chain `chain` with descriptor `desc`;
   * in the GLES variant the device is queried for its GLES interface, which
   * yields `queried`.
   */
  function AfterInitialize(s: State, chain: SwapChain, desc: SwapChainDesc, queried: Option<GlesDevice>): (r: Step)
    ensures !r.post.paused && r.post.swapChain == Some(chain)
    ensures r.post.Geometry() == desc
    ensures r.post.device == s.device
    // the GLES interface is acquired only in the GLES variant
    ensures r.post.gles == (if s.device == Gles then queried else s.gles)
    ensures r.calls == []
  {
    var g := if s.device == Gles then queried else s.gles;
    Step(State(s.device, false, Some(chain), g, desc.width, desc.height, desc.preTransform), [])
  }

  /** Resume needs the GLES interface in the GLES variant: the code calls through it unchecked. */
  predicate CanResume(s: State) {
    s.device == Gles ==> s.gles.Some?
  }

  /**
   * Resume with a new window. Vulkan: `created` is what swap chain creation
   * yields. GLES: `deviceCode` is what the GLES device's Resume returns.
   */
  function AfterResume(s: State, window: NativeWindow, created: Option<SwapChain>, deviceCode: int): (r: Resumed)
    requires CanResume(s)
    ensures r.step.post.device == s.device && r.step.post.gles == s.gles
    ensures r.step.post.Geometry() == s.Geometry()
    ensures s.device == Vulkan ==>
      && r.step.calls == Released(s.swapChain) + [ResetSwapChain(None), IdleGpu, CreateSwapChain(window, created), ResetSwapChain(created)]
      && r.step.post.swapChain == created
      && (r.step.post.paused <==> created.Some?)
      && (r.code == EglSuccess <==> created.Some?)
      && (r.code == EglSuccess || r.code == EglNotInitialized)
    ensures s.device == Gles ==>
      && r.step.calls == [DeviceResume(window, deviceCode)]
      && r.step.post.swapChain == s.swapChain
      && r.code == deviceCode
      && (r.step.post.paused <==> deviceCode == EglSuccess)
  {
    match s.device
    case Vulkan =>
      var calls := Released(s.swapChain) + [ResetSwapChain(None), IdleGpu, CreateSwapChain(window, created), ResetSwapChain(created)];
      Resumed(Step(s.(paused := created.Some?, swapChain := created), calls),
              if created.Some? then EglSuccess else EglNotInitialized)
    case Gles =>
      Resumed(Step(s.(paused := deviceCode == EglSuccess), [DeviceResume(window, deviceCode)]), deviceCode)
  }

  /** TermDisplay: the window goes away. */
  function AfterTermDisplay(s: State): (r: Step)
    ensures r.post.paused
    ensures r.post.device == s.device && r.post.gles == s.gles && r.post.Geometry() == s.Geometry()
    ensures s.device == Vulkan ==>
      r.post.swapChain.None? && r.calls == Released(s.swapChain) + [ResetSwapChain(None)]
    ensures s.device == Gles ==>
      r.post.swapChain == s.swapChain && r.calls == (if s.gles.Some? then [DeviceSuspend] else [])
  {
    match s.device
    case Vulkan => Step(s.(paused := true, swapChain := None), Released(s.swapChain) + [ResetSwapChain(None)])
    case Gles => Step(s.(paused := true), if s.gles.Some? then [DeviceSuspend] else [])
  }

  /** TrimMemory: memory pressure. */
  function AfterTrimMemory(s: State): (r: Step)
    ensures r.post == s
    ensures r.calls == (if s.device == Gles && s.gles.Some? then [DeviceInvalidate] else [])
  {
    Step(s, if s.device == Gles && s.gles.Some? then [DeviceInvalidate] else [])
  }

  /** The operations the platform drives, with what the environment answers. */
  datatype Event =
    | OnInitialize(chain: SwapChain, desc: SwapChainDesc, queried: Option<GlesDevice>)
    | OnResume(window: NativeWindow, created: Option<SwapChain>, deviceCode: int)
    | OnTermDisplay
    | OnTrimMemory
    | OnDrawFrame(desc: SwapChainDesc)

  predicate CanApply(s: State, e: Event) {
    e.OnResume? ==> CanResume(s)
  }

  function Apply(s: State, e: Event): Step
    requires CanApply(s, e)
  {
    match e
    case OnInitialize(chain, desc, queried) => AfterInitialize(s, chain, desc, queried)
    case OnResume(window, created, code) => AfterResume(s, window, created, code).step
    case OnTermDisplay => AfterTermDisplay(s)
    case OnTrimMemory => AfterTrimMemory(s)
    case OnDrawFrame(desc) => AfterDrawFrame(s, desc)
  }

  /** Every event of `evs` can be applied in turn, starting from `s`. */
  predicate Runnable(s: State, evs: seq<Event>)
    decreases |evs|
  {
    evs == [] || (CanApply(s, evs[0]) && Runnable(Apply(s, evs[0]).post, evs[1..]))
  }

  /** The state and the calls after applying `evs` in order. */
  function Run(s: State, evs: seq<Event>): (r: Step)
    requires Runnable(s, evs)
    // the backend variant never changes during a session
    ensures r.post.device == s.device
    decreases |evs|
  {
    if evs == [] then Step(s, [])
    else
      var first := Apply(s, evs[0]);
      var rest := Run(first.post, evs[1..]);
      Step(rest.post, first.calls + rest.calls)
  }

  /** Calls that the given backend variant may make. */
  predicate BelongsTo(device: DeviceType, c: Call) {
    match c
    case ReleaseSwapChain(_) => device == Vulkan
    case ResetSwapChain(_) => device == Vulkan
    case IdleGpu => device == Vulkan
    case CreateSwapChain(_, _) => device == Vulkan
    case DeviceResume(_, _) => device == Gles
    case DeviceSuspend => device == Gles
    case DeviceInvalidate => device == Gles
    case _ => true
  }

  /**
   * Over any run, the Vulkan variant never touches the GLES device and the GLES
   * variant never releases, creates or rebinds a swap chain or idles the GPU.
   */
  lemma {:induction false} CallsBelongToVariant(s: State, evs: seq<Event>)
    requires Runnable(s, evs)
    ensures forall i :: 0 <= i < |Run(s, evs).calls| ==> BelongsTo(s.device, Run(s, evs).calls[i])
    decreases |evs|
  {
    if evs != [] {
      var first := Apply(s, evs[0]);
      CallsBelongToVariant(first.post, evs[1..]);
      assert forall i :: 0 <= i < |first.calls| ==> BelongsTo(s.device, first.calls[i]);
    }
  }

  /** In the GLES variant, only Initialize ever replaces the swap chain. */
  lemma {:induction false} GlesKeepsSwapChain(s: State, evs: seq<Event>)
    requires s.device == Gles && Runnable(s, evs)
    requires forall i :: 0 <= i < |evs| ==> !evs[i].OnInitialize?
    ensures Run(s, evs).post.swapChain == s.swapChain
    decreases |evs|
  {
    if evs != [] {
      GlesKeepsSwapChain(Apply(s, evs[0]).post, evs[1..]);
    }
  }

  /**
   * A paused session that only receives frames and memory-trim requests stays
   * exactly as it is: it never re-fits, notifies or draws; the only calls are
   * GLES invalidations.
   */
  lemma {:induction false} PausedSessionStaysIdle(s: State, evs: seq<Event>)
    requires s.paused
    requires forall i :: 0 <= i < |evs| ==> evs[i].OnDrawFrame? || evs[i].OnTrimMemory?
    ensures Runnable(s, evs)
    ensures Run(s, evs).post == s
    ensures forall i :: 0 <= i < |Run(s, evs).calls| ==> Run(s, evs).calls[i] == DeviceInvalidate
    decreases |evs|
  {
    if evs != [] {
      PausedSessionStaysIdle(s, evs[1..]);
    }
  }

  /**
   * After TermDisplay no frame does any GPU work until the next Initialize or
   * Resume: every later frame or trim leaves the session paused and draws nothing.
   */
  lemma TermDisplayStopsDrawing(s: State, evs: seq<Event>)
    requires forall i :: 0 <= i < |evs| ==> evs[i].OnDrawFrame? || evs[i].OnTrimMemory?
    ensures Runnable(AfterTermDisplay(s).post, evs)
    ensures Run(AfterTermDisplay(s).post, evs).post.paused
    ensures BaseDrawFrame !in Run(AfterTermDisplay(s).post, evs).calls
    ensures Notifications(Run(AfterTermDisplay(s).post, evs).calls) == 0
  {
    var t := AfterTermDisplay(s).post;
    PausedSessionStaysIdle(t, evs);
    NoNotificationsAmongInvalidations(Run(t, evs).calls);
  }

  lemma {:induction false} NoNotificationsAmongInvalidations(calls: seq<Call>)
    requires forall i :: 0 <= i < |calls| ==> calls[i] == DeviceInvalidate
    ensures Notifications(calls) == 0
    decreases |calls|
  {
    if calls != [] {
      NoNotificationsAmongInvalidations(calls[1..]);
    }
  }

  /** TermDisplay twice is TermDisplay once; the second one releases nothing. */
  lemma TermDisplayIdempotent(s: State)
    ensures AfterTermDisplay(AfterTermDisplay(s).post).post == AfterTermDisplay(s).post
    ensures forall i :: 0 <= i < |AfterTermDisplay(AfterTermDisplay(s).post).calls| ==>
      !AfterTermDisplay(AfterTermDisplay(s).post).calls[i].ReleaseSwapChain?
  {
  }

  /** Frames against a descriptor that already matches the cache never notify and change nothing. */
  lemma {:induction false} SettledWindowNeverNotifies(s: State, d: SwapChainDesc, evs: seq<Event>)
    requires s.Geometry() == d
    requires forall i :: 0 <= i < |evs| ==> evs[i] == OnDrawFrame(d)
    ensures Runnable(s, evs)
    ensures Run(s, evs).post == s
    ensures Notifications(Run(s, evs).calls) == 0
    decreases |evs|
  {
    if evs != [] {
      var first := AfterDrawFrame(s, d);
      SettledWindowNeverNotifies(first.post, d, evs[1..]);
      NotificationsAppend(first.calls, Run(first.post, evs[1..]).calls);
    }
  }

  /**
   * Polling is idempotent: any number of frames that see the same descriptor
   * notify the sample at most once, and the cache then equals the descriptor
   * unless drawing was never possible.
   */
  lemma {:induction false} StableWindowNotifiesAtMostOnce(s: State, d: SwapChainDesc, evs: seq<Event>)
    requires forall i :: 0 <= i < |evs| ==> evs[i] == OnDrawFrame(d)
    ensures Runnable(s, evs)
    ensures Notifications(Run(s, evs).calls) <= 1
    ensures evs != [] && s.CanDraw() ==> Run(s, evs).post.Geometry() == d
    decreases |evs|
  {
    if evs != [] {
      var first := AfterDrawFrame(s, d);
      if s.CanDraw() {
        SettledWindowNeverNotifies(first.post, d, evs[1..]);
      } else {
        StableWindowNotifiesAtMostOnce(first.post, d, evs[1..]);
      }
      NotificationsAppend(first.calls, Run(first.post, evs[1..]).calls);
    }
  }

  /**
   * As written, a successful Resume leaves the session paused in both variants,
   * so the next frame does nothing.
   */
  lemma SuccessfulResumeLeavesSessionPaused(s: State, window: NativeWindow, created: Option<SwapChain>, deviceCode: int, desc: SwapChainDesc)
    requires CanResume(s)
    requires AfterResume(s, window, created, deviceCode).code == EglSuccess
    ensures AfterResume(s, window, created, deviceCode).step.post.paused
    ensures AfterDrawFrame(AfterResume(s, window, created, deviceCode).step.post, desc).calls == []
  {
  }

  /**
   * As written, a GLES Resume whose device resume fails clears the paused flag
   * while the swap chain is still held, so the next frame re-fits the swap
   * chain and runs the base frame.
   */
  lemma FailedGlesResumeLeavesFramesRunning(s: State, window: NativeWindow, deviceCode: int, desc: SwapChainDesc)
    requires s.device == Gles && s.gles.Some? && s.swapChain.Some?
    requires deviceCode != EglSuccess
    ensures !AfterResume(s, window, None, deviceCode).step.post.paused
    ensures AfterResume(s, window, None, deviceCode).step.post.swapChain == s.swapChain
    ensures AfterResume(s, window, None, deviceCode).code == deviceCode
    ensures AfterDrawFrame(AfterResume(s, window, None, deviceCode).step.post, desc).calls[0]
      == ResizeSwapChain(s.swapChain.value)
    ensures BaseDrawFrame in AfterDrawFrame(AfterResume(s, window, None, deviceCode).step.post, desc).calls
  {
  }

  /**
   * As written, a Vulkan Resume whose swap chain creation fails clears the
   * paused flag although no swap chain is held; DrawFrame's null check still
   * keeps the next frame from doing anything.
   */
  lemma FailedVulkanResumeUnpausesWithoutSwapChain(s: State, window: NativeWindow, desc: SwapChainDesc)
    requires s.device == Vulkan
    ensures !AfterResume(s, window, None, 0).step.post.paused
    ensures AfterResume(s, window, None, 0).step.post.swapChain.None?
    ensures AfterResume(s, window, None, 0).code == EglNotInitialized
    ensures AfterDrawFrame(AfterResume(s, window, None, 0).step.post, desc).calls == []
  {
  }
}
