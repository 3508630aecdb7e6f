# SampleAppAndroid: session lifecycle and gesture dispatch

This project models `SampleAppAndroid`, the class in Diligent Engine's sample base that ties a rendering session to the Android activity lifecycle. The model covers three parts:

- **Session lifecycle** (`Initialize`, `Resume`, `TermDisplay`, `TrimMemory`). There are two backend variants. Vulkan recreates its swap chain for each new window. GLES hands suspend, resume and invalidate to the GLES device.
- **Per-frame geometry reconciliation** (`DrawFrame`). Each frame the swap chain is asked to re-fit. Its descriptor is then compared with the cached width, height and pre-transform, and the sample is told about a change.
- **Gesture dispatch** (`HandleInput`). The outputs of the tap, drag and pinch detectors are turned into an ordered list of calls on the ImGui overlay and the application's input controller, plus a return code.

Files:

- `wrappers.dfy`: `Option`, used for nullable pointers and absent handles.
- `lifecycle.dfy`, module `Lifecycle`:
  - the session state and the collaborator calls;
  - one pure transition per operation, returning the new state and the calls it made, in order;
  - runs of lifecycle events, and the lemmas about them.
- `sample_app.dfy`, module `Android`: the class `SampleAppAndroid`. It has the source's fields, and its methods update them in place. Each method is proved to follow the matching `Lifecycle` transition. The ghost field `trace` records every collaborator call.
- `gestures.dfy`, module `Gestures`: `HandleInput` as a pure function of the detector outputs and the overlay's answer, and lemmas over event streams.

The backend variant is a two-valued datatype fixed when the object is built, so the source's `UNEXPECTED` default branches cannot be reached. The source constructor fixes GLES (SampleBase/src/Android/SampleAppAndroid.cpp:45), and the Vulkan branches exist only in builds with `VULKAN_SUPPORTED`. The model's constructor takes the variant as a parameter so that both branches are modelled.

Constants:

- `EGL_SUCCESS` is 0x3000 and `EGL_NOT_INITIALIZED` is 0x3001, the values the EGL standard gives.
- The detector states come from ndk_helper's gesture detector: NONE 0, START 1, MOVE 2, END 4, ACTION 5 (START | END). ndk_helper is not part of this model.

## Behaviour kept as written

In three places the code does something a reader might not expect. The model follows the code and proves what it does.

- One might expect `paused` to clear only after a successful resume. The code sets `paused` to true when `Resume` succeeds and to false when it fails (lines 143-144 and 150). So after a successful resume the next frame does nothing (`Lifecycle.SuccessfulResumeLeavesSessionPaused`).
- The same assignment has two consequences when `Resume` fails:
  - Vulkan: a failed swap chain creation clears `paused` while no swap chain is held (`Lifecycle.FailedVulkanResumeUnpausesWithoutSwapChain`). `DrawFrame`'s null check at line 50 still stops that frame.
  - GLES: a failed device resume clears `paused` while the swap chain is still held. So the next frame re-fits the swap chain, may notify the sample, and runs the base frame (`Lifecycle.FailedGlesResumeLeavesFramesRunning`).
- One might expect an overlay that accepts `BeginDrag` to keep the rest of that drag. The code takes the overlay's answer separately for each drag event. A later `DragMove` the overlay declines still reaches the application, and `EndDrag` always does (`Gestures.OverlayStartDoesNotCaptureDrag`).

## Model

| member | source | states |
|---|---|---|
| `Android.SampleAppAndroid.constructor` | SampleBase/src/Android/SampleAppAndroid.cpp:42-46 | A new session is paused and holds no swap chain and no GLES interface. Its cached geometry is 0 x 0 with the OPTIMAL transform, its variant is fixed, and its trace is empty. |
| `Lifecycle.AfterDrawFrame` | SampleBase/src/Android/SampleAppAndroid.cpp:48-72 | When paused or without a swap chain, a frame makes no call and changes nothing. Otherwise the cache becomes the descriptor and nothing else changes. The frame sends exactly one `WindowResize(width, height)` when the descriptor differs from the cache, and none when it matches. The re-fit comes first and the base frame last, and every other call is that notification, so no other call is made. |
| `Android.SampleAppAndroid.DrawFrame` | SampleBase/src/Android/SampleAppAndroid.cpp:48-72 | When paused or without a swap chain, the object is unchanged. Otherwise its fields and trace follow `AfterDrawFrame`. |
| `Lifecycle.SettledWindowNeverNotifies` | SampleBase/src/Android/SampleAppAndroid.cpp:59-69 | Any number of frames whose descriptor already equals the cache send no notification and leave the state unchanged. |
| `Lifecycle.StableWindowNotifiesAtMostOnce` | SampleBase/src/Android/SampleAppAndroid.cpp:59-69 | Any number of frames that all see the same descriptor notify at most once. Afterwards the cache equals that descriptor whenever drawing was possible. |
| `Lifecycle.AfterInitialize` | SampleBase/src/Android/SampleAppAndroid.cpp:74-123 | After initialisation the session is not paused and holds the engine's swap chain. Its cached geometry equals the swap chain descriptor. The GLES interface is taken from the query only in the GLES variant. No recorded collaborator call is made. |
| `Android.SampleAppAndroid.Initialize` | SampleBase/src/Android/SampleAppAndroid.cpp:74-123 | The fields follow `AfterInitialize`: `paused` is false, the swap chain is set, and width, height and pre-transform equal the descriptor. The trace is unchanged. |
| `Lifecycle.AfterResume` | SampleBase/src/Android/SampleAppAndroid.cpp:125-159 | Vulkan: the calls are, in order, release of the held chain (if any), `ResetSwapChain(null)`, `IdleGPU`, create, `ResetSwapChain(new)`. `paused` holds exactly when a chain was created. The code is `EGL_SUCCESS` exactly then, else `EGL_NOT_INITIALIZED`. GLES: the only call is the device's `Resume`, its code is returned unchanged, and `paused` is (code == `EGL_SUCCESS`). The swap chain is kept. In both variants the geometry and the GLES interface are unchanged. |
| `Android.SampleAppAndroid.Resume` | SampleBase/src/Android/SampleAppAndroid.cpp:125-159 | The fields, trace and returned code follow `AfterResume`. In the GLES variant the caller must hold the GLES interface. |
| `Lifecycle.SuccessfulResumeLeavesSessionPaused` | SampleBase/src/Android/SampleAppAndroid.cpp:143-150 | A `Resume` that returns `EGL_SUCCESS` leaves the session paused, so the next frame makes no call. |
| `Lifecycle.FailedGlesResumeLeavesFramesRunning` | SampleBase/src/Android/SampleAppAndroid.cpp:148-152 | A GLES `Resume` whose device code is not `EGL_SUCCESS` returns that code and leaves `paused` false with the swap chain still held. The next frame starts with the re-fit and runs the base frame. |
| `Lifecycle.FailedVulkanResumeUnpausesWithoutSwapChain` | SampleBase/src/Android/SampleAppAndroid.cpp:131-144 | A Vulkan `Resume` whose creation fails returns `EGL_NOT_INITIALIZED`. It leaves `paused` false with no swap chain, and the next frame makes no call. |
| `Lifecycle.AfterTermDisplay` | SampleBase/src/Android/SampleAppAndroid.cpp:161-185 | `paused` always becomes true. Vulkan: the held chain is released, then `ResetSwapChain(null)` is called and no chain is held. GLES: `Suspend` is called only if the GLES interface is present, and the swap chain is untouched. |
| `Android.SampleAppAndroid.TermDisplay` | SampleBase/src/Android/SampleAppAndroid.cpp:161-185 | `paused` is true afterwards. The fields and trace follow `AfterTermDisplay`. |
| `Lifecycle.TermDisplayIdempotent` | SampleBase/src/Android/SampleAppAndroid.cpp:161-185 | A second `TermDisplay` leaves the same state as the first and releases no swap chain. |
| `Lifecycle.TermDisplayStopsDrawing` | SampleBase/src/Android/SampleAppAndroid.cpp:161-185 | After `TermDisplay`, any run of frames and memory trims leaves the session paused, sends no notification and never runs the base frame. |
| `Lifecycle.PausedSessionStaysIdle` | SampleBase/src/Android/SampleAppAndroid.cpp:48-51 | A paused session that receives only frames and memory trims keeps its exact state. Its only calls are GLES invalidations. |
| `Lifecycle.AfterTrimMemory` | SampleBase/src/Android/SampleAppAndroid.cpp:187-208 | The state is unchanged. The only call is `Invalidate`, made only in the GLES variant with the interface present. |
| `Android.SampleAppAndroid.TrimMemory` | SampleBase/src/Android/SampleAppAndroid.cpp:187-208 | No field changes. The trace grows by `AfterTrimMemory`'s calls. |
| `Lifecycle.Run` | SampleBase/src/Android/SampleAppAndroid.cpp:42-46 | Over any run of lifecycle events, the backend variant chosen at construction never changes. |
| `Lifecycle.CallsBelongToVariant` | SampleBase/src/Android/SampleAppAndroid.cpp:125-208 | Over any run, the Vulkan variant never calls the GLES device. The GLES variant never releases, creates or rebinds a swap chain and never idles the GPU. |
| `Lifecycle.GlesKeepsSwapChain` | SampleBase/src/Android/SampleAppAndroid.cpp:148-208 | In the GLES variant, a run without `Initialize` never changes the swap chain. |
| `Gestures.PhaseOf` | SampleBase/src/Android/SampleAppAndroid.cpp:227-256 | A detector's bit mask selects Start if its START bit is set, else Move if its MOVE bit is set, else End if its END bit is set, else nothing. So at most one branch is taken. |
| `Gestures.DispatchDrag` | SampleBase/src/Android/SampleAppAndroid.cpp:226-256 | A drag phase is offered to the overlay exactly once, first. The application receives the same gesture with the same pointer exactly when the phase is End or the overlay declined; there are then two calls, otherwise one. Without a phase there is no call. |
| `Gestures.DispatchPinch` | SampleBase/src/Android/SampleAppAndroid.cpp:258-287 | Each pinch phase gives exactly one call, to the application and never to the overlay, carrying both pointers for Start and Move. Without a phase there is no call. |
| `Gestures.HandleInput` | SampleBase/src/Android/SampleAppAndroid.cpp:210-292 | Returns 1 for every motion event and 0 otherwise. Non-motion events and a double-tap ACTION make no call. Otherwise drag delivery comes first, then pinch delivery. The overlay only sees drags. The application gets `BeginDrag` or `DragMove` only right after the overlay declined that same gesture. There are at most three calls. |
| `Gestures.DeclinedEventMirrorsDrag` | SampleBase/src/Android/SampleAppAndroid.cpp:227-256 | For one event the overlay declines, the application's drags are exactly the overlay's drags. |
| `Gestures.DeclinedDragsReachApplication` | SampleBase/src/Android/SampleAppAndroid.cpp:227-256 | For any event stream in which the overlay declines every offer, the application's drags equal the overlay's, in order and with the same pointers. |
| `Gestures.UnhandledDragReachesApplication` | SampleBase/src/Android/SampleAppAndroid.cpp:227-256 | Start, Move and End with the overlay declining give the application exactly `BeginDrag(p0)`, `DragMove(p1)` and `EndDrag`. |
| `Gestures.OverlayStartDoesNotCaptureDrag` | SampleBase/src/Android/SampleAppAndroid.cpp:234-256 | If the overlay accepts `BeginDrag` and then declines the move, the application still receives `DragMove(p1)` and `EndDrag`. |

## Left out

- Engine and platform setup: the file-system initialisation, `SampleApp::Initialize`, `InitializeDiligentEngine`, `InitializeSample`, swap chain creation and the ImGui construction. These are calls into code not shown. Only their results are modelled: the swap chain and its descriptor from engine start-up, the created chain (or none) on a Vulkan resume, and the GLES interface query.
- Initialize: it assumes the engine produced a swap chain, because the code dereferences it. A missing swap chain at start-up is not modelled.
- The internals of the tap, drag and pinch detectors and their pointer getters. These are library code not shown. Their outputs for an event are inputs to `HandleInput`, and coordinates are an opaque type passed through unchanged.
- The overlay's answer: one boolean per event answers whichever drag offer that event makes.
- The double-tap branch itself has no effect in the code (its body is a comment), so the model makes no call for it.
- `paused` is a `std::atomic_bool` in the code. Its cross-thread visibility is not modelled; it is a plain boolean.
- Float coordinates, and the `Uint32`-to-`int` cast of width and height in `WindowResize`. Sizes are unbounded naturals, so a size above 2^31 - 1, which the cast would make negative, is not modelled.
- Reference counting in `RefCntAutoPtr` and the interface query. Each handle is present or absent. A release is recorded only when a swap chain was held, because releasing a null pointer does nothing.
- The descriptor fields other than width, height and pre-transform (formats, buffer count). The reconciler does not compare them.
- Logging, the unreachable `UNEXPECTED` defaults, the `CreateApplication` factory, and the body of the base `SampleApp::DrawFrame`. The base frame is recorded only as a trace event.
- `Android.SampleAppAndroid.Resume`: in the GLES variant it requires the GLES interface to be present, because the code calls through it without a null check (a crash, not an error path).
