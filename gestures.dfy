/**
 * Gesture dispatch of the Android sample application (HandleInput). The tap,
 * drag and pinch detectors are outside this model: their outputs for an event
 * are inputs here, together with the overlay's answer to the drag offer. The
 * result is the ordered list of calls made on the overlay (ImGui) and on the
 * application's input controller, and the value returned to the platform.
 */
module Gestures {
  import opened Wrappers

  /** A pointer coordinate. It is only passed along, never examined. */
  type Coord(==, 0)

  datatype Point = Point(x: Coord, y: Coord)

  /** ndk_helper's GESTURE_STATE: a bit mask reported by each detector. */
  type GestureState = bv32

  const GestureNone: GestureState := 0
  const GestureStart: GestureState := 1
  const GestureMove: GestureState := 2
  const GestureEnd: GestureState := 4
  /** The double-tap detector's "recognised" answer, GestureStart | GestureEnd. */
  const GestureAction: GestureState := 5

  /** The Android input event classes (AINPUT_EVENT_TYPE_*). */
  datatype EventType = Key | Motion | Focus | Capture | Drag | TouchMode

  /** What the three detectors report for one event, and the pointers they expose. */
  datatype Detected = Detected(
    tap: GestureState,
    drag: GestureState,
    pinch: GestureState,
    dragPointer: Point,
    pinchFirst: Point,
    pinchSecond: Point)

  /** One input event as the dispatcher sees it; `overlayHandled` answers the drag offer. */
  datatype InputEvent = InputEvent(kind: EventType, detected: Detected, overlayHandled: bool)

  /** Who receives a call: the ImGui overlay or the application's input controller. */
  datatype Consumer = Overlay | Application

  datatype Gesture =
    | BeginDrag(at: Point)
    | DragMove(at: Point)
    | EndDrag
    | StartPinch(first: Point, second: Point)
    | PinchMove(first: Point, second: Point)
    | EndPinch
  {
    predicate IsDrag() {
      BeginDrag? || DragMove? || EndDrag?
    }
  }

  datatype Call = Call(to: Consumer, gesture: Gesture)

  /** The calls made for one event and the value returned to the platform. */
  datatype Dispatch = Dispatch(calls: seq<Call>, code: int)

  datatype Phase = Start | Move | End

  /**
   * The phase a detector's bit mask selects. The bits are tested in the order
   * Start, Move, End and the first one set wins.
   */
  function PhaseOf(state: GestureState): (p: Option<Phase>)
    ensures p == Some(Start) <==> state & GestureStart != 0
    ensures p == Some(Move) <==> state & GestureStart == 0 && state & GestureMove != 0
    ensures p == Some(End) <==> state & GestureStart == 0 && state & GestureMove == 0 && state & GestureEnd != 0
    ensures p.None? <==> state & (GestureStart | GestureMove | GestureEnd) == 0
  {
    if state & GestureStart != 0 then Some(Start)
    else if state & GestureMove != 0 then Some(Move)
    else if state & GestureEnd != 0 then Some(End)
    else None
  }

  /** The drag gesture of a phase at a pointer. */
  function DragGesture(phase: Phase, at: Point): Gesture {
    match phase
    case Start => BeginDrag(at)
    case Move => DragMove(at)
    case End => EndDrag
  }

  /**
   * Drag delivery for one event: the overlay is offered the gesture first; the
   * application receives the same gesture, with the same pointer, when the
   * overlay declines it, and always when the drag ends.
   */
  function DispatchDrag(phase: Option<Phase>, at: Point, overlayHandled: bool): (r: seq<Call>)
    ensures phase.None? <==> r == []
    ensures |r| <= 2
    // one offer to the overlay, and a second call only for the application
    ensures phase.Some? ==> |r| == (if phase.value == End || !overlayHandled then 2 else 1)
    ensures phase.Some? ==> r[0] == Call(Overlay, DragGesture(phase.value, at))
    ensures phase.Some? ==>
      (Call(Application, DragGesture(phase.value, at)) in r <==> phase.value == End || !overlayHandled)
    ensures forall i :: 0 <= i < |r| ==> r[i].gesture == DragGesture(phase.value, at)
  {
    match phase
    case None => []
    case Some(p) =>
      var offer := [Call(Overlay, DragGesture(p, at))];
      if p == End || !overlayHandled then offer + [Call(Application, DragGesture(p, at))] else offer
  }

  /** Pinch delivery for one event: straight to the application, never to the overlay. */
  function DispatchPinch(phase: Option<Phase>, first: Point, second: Point): (r: seq<Call>)
    ensures |r| == (if phase.None? then 0 else 1)
    ensures forall i :: 0 <= i < |r| ==> r[i].to == Application && !r[i].gesture.IsDrag()
    ensures phase == Some(Start) ==> r == [Call(Application, StartPinch(first, second))]
    ensures phase == Some(Move) ==> r == [Call(Application, PinchMove(first, second))]
    ensures phase == Some(End) ==> r == [Call(Application, EndPinch)]
  {
    match phase
    case None => []
    case Some(Start) => [Call(Application, StartPinch(first, second))]
    case Some(Move) => [Call(Application, PinchMove(first, second))]
    case Some(End) => [Call(Application, EndPinch)]
  }

  /** HandleInput: dispatch one event and say whether it was a motion event. */
  function HandleInput(e: InputEvent): (r: Dispatch)
    // 1 for every motion event, 0 for every other event
    ensures r.code == (if e.kind == Motion then 1 else 0)
    // other events reach nobody; a recognised double tap suppresses drag and pinch
    ensures e.kind != Motion || e.detected.tap == GestureAction ==> r.calls == []
    // otherwise drag delivery comes first, then pinch delivery
    ensures e.kind == Motion && e.detected.tap != GestureAction ==>
      r.calls == DispatchDrag(PhaseOf(e.detected.drag), e.detected.dragPointer, e.overlayHandled)
               + DispatchPinch(PhaseOf(e.detected.pinch), e.detected.pinchFirst, e.detected.pinchSecond)
    // the overlay only ever sees drags
    ensures forall i :: 0 <= i < |r.calls| && r.calls[i].to == Overlay ==> r.calls[i].gesture.IsDrag()
    // the application gets BeginDrag or DragMove only after the overlay, offered the
    // same gesture first, declined it
    ensures forall i :: 0 <= i < |r.calls| && r.calls[i].to == Application
                        && (r.calls[i].gesture.BeginDrag? || r.calls[i].gesture.DragMove?) ==>
      !e.overlayHandled && 0 < i && r.calls[0] == Call(Overlay, r.calls[i].gesture)
    // at most one drag offer and one pinch call per event
    ensures |r.calls| <= 3
  {
    if e.kind == Motion then
      if e.detected.tap == GestureAction then
        Dispatch([], 1)
      else
        var d := e.detected;
        var drag := DispatchDrag(PhaseOf(d.drag), d.dragPointer, e.overlayHandled);
        var pinch := DispatchPinch(PhaseOf(d.pinch), d.pinchFirst, d.pinchSecond);
        Dispatch(drag + pinch, 1)
    else
      Dispatch([], 0)
  }

  /** The calls made for a stream of events, in order. */
  function DispatchAll(evs: seq<InputEvent>): seq<Call>
    decreases |evs|
  {
    if evs == [] then [] else HandleInput(evs[0]).calls + DispatchAll(evs[1..])
  }

  /** The gestures delivered to `who`, in order. */
  function DeliveredTo(who: Consumer, calls: seq<Call>): seq<Gesture>
    decreases |calls|
  {
    if calls == [] then []
    else (if calls[0].to == who then [calls[0].gesture] else []) + DeliveredTo(who, calls[1..])
  }

  /** The drag gestures among `gs`, in order. */
  function Drags(gs: seq<Gesture>): seq<Gesture>
    decreases |gs|
  {
    if gs == [] then [] else (if gs[0].IsDrag() then [gs[0]] else []) + Drags(gs[1..])
  }

  lemma {:induction false} DeliveredToAppend(who: Consumer, a: seq<Call>, b: seq<Call>)
    ensures DeliveredTo(who, a + b) == DeliveredTo(who, a) + DeliveredTo(who, b)
    decreases |a|
  {
    if a == [] {
      assert a + b == b;
    } else {
      var head := if a[0].to == who then [a[0].gesture] else [];
      assert (a + b)[0] == a[0];
      assert (a + b)[1..] == a[1..] + b;
      assert DeliveredTo(who, a + b) == head + DeliveredTo(who, a[1..] + b);
      DeliveredToAppend(who, a[1..], b);
      assert head + (DeliveredTo(who, a[1..]) + DeliveredTo(who, b)) == (head + DeliveredTo(who, a[1..])) + DeliveredTo(who, b);
    }
  }

  lemma {:induction false} DragsAppend(a: seq<Gesture>, b: seq<Gesture>)
    ensures Drags(a + b) == Drags(a) + Drags(b)
    decreases |a|
  {
    if a == [] {
      assert a + b == b;
    } else {
      var head := if a[0].IsDrag() then [a[0]] else [];
      assert (a + b)[0] == a[0];
      assert (a + b)[1..] == a[1..] + b;
      assert Drags(a + b) == head + Drags(a[1..] + b);
      DragsAppend(a[1..], b);
      assert head + (Drags(a[1..]) + Drags(b)) == (head + Drags(a[1..])) + Drags(b);
    }
  }

  /** For one event the overlay declines, the application receives exactly the overlay's drags. */
  lemma DeclinedEventMirrorsDrag(e: InputEvent)
    requires !e.overlayHandled
    ensures Drags(DeliveredTo(Application, HandleInput(e).calls)) == DeliveredTo(Overlay, HandleInput(e).calls)
  {
    var calls := HandleInput(e).calls;
    if e.kind == Motion && e.detected.tap != GestureAction {
      var d := e.detected;
      var drag := DispatchDrag(PhaseOf(d.drag), d.dragPointer, e.overlayHandled);
      var pinch := DispatchPinch(PhaseOf(d.pinch), d.pinchFirst, d.pinchSecond);
      DeliveredToAppend(Application, drag, pinch);
      DeliveredToAppend(Overlay, drag, pinch);
      if drag != [] {
        assert drag == [drag[0]] + [drag[1]];
        DeliveredToAppend(Application, [drag[0]], [drag[1]]);
        DeliveredToAppend(Overlay, [drag[0]], [drag[1]]);
      }
      DragsAppend(DeliveredTo(Application, drag), DeliveredTo(Application, pinch));
    }
  }

  /**
   * When the overlay declines every drag offer, the application receives every
   * drag the overlay was offered, in the same order and with the same pointers,
   * and only those besides its pinches.
   */
  lemma {:induction false} DeclinedDragsReachApplication(evs: seq<InputEvent>)
    requires forall i :: 0 <= i < |evs| ==> !evs[i].overlayHandled
    ensures Drags(DeliveredTo(Application, DispatchAll(evs))) == DeliveredTo(Overlay, DispatchAll(evs))
    decreases |evs|
  {
    if evs != [] {
      var first := HandleInput(evs[0]).calls;
      var rest := DispatchAll(evs[1..]);
      DeclinedDragsReachApplication(evs[1..]);
      DeclinedEventMirrorsDrag(evs[0]);
      DeliveredToAppend(Application, first, rest);
      DeliveredToAppend(Overlay, first, rest);
      DragsAppend(DeliveredTo(Application, first), DeliveredTo(Application, rest));
    }
  }

  /** A motion event that only the drag detector reports on. */
  function DragOnly(state: GestureState, at: Point, overlayHandled: bool): InputEvent {
    InputEvent(Motion, Detected(GestureNone, state, GestureNone, at, at, at), overlayHandled)
  }

  /** The calls for a drag-only event are exactly the drag delivery for its phase. */
  lemma DragOnlyCalls(state: GestureState, at: Point, overlayHandled: bool)
    ensures HandleInput(DragOnly(state, at, overlayHandled)).calls
      == DispatchDrag(PhaseOf(state), at, overlayHandled)
  {
  }

  /** What the application receives from one drag-only event. */
  lemma DragOnlyReachesApplication(phase: Phase, state: GestureState, at: Point, overlayHandled: bool)
    requires PhaseOf(state) == Some(phase)
    ensures DeliveredTo(Application, HandleInput(DragOnly(state, at, overlayHandled)).calls)
      == (if phase == End || !overlayHandled then [DragGesture(phase, at)] else [])
  {
    DragOnlyCalls(state, at, overlayHandled);
    var overlay := Call(Overlay, DragGesture(phase, at));
    if phase == End || !overlayHandled {
      assert DispatchDrag(Some(phase), at, overlayHandled) == [overlay] + [Call(Application, DragGesture(phase, at))];
      DeliveredToAppend(Application, [overlay], [Call(Application, DragGesture(phase, at))]);
    } else {
      assert DispatchDrag(Some(phase), at, overlayHandled) == [overlay];
    }
  }

  /** The calls for three events in a row. */
  lemma DispatchThree(e0: InputEvent, e1: InputEvent, e2: InputEvent)
    ensures DispatchAll([e0, e1, e2]) == HandleInput(e0).calls + (HandleInput(e1).calls + HandleInput(e2).calls)
  {
    assert DispatchAll([e2]) == HandleInput(e2).calls by {
      assert [e2][1..] == [];
    }
    assert DispatchAll([e1, e2]) == HandleInput(e1).calls + DispatchAll([e2]) by {
      assert [e1, e2][1..] == [e2];
    }
    assert [e0, e1, e2][1..] == [e1, e2];
  }

  /** What the application receives from three events in a row. */
  lemma DeliveredOverThree(e0: InputEvent, e1: InputEvent, e2: InputEvent)
    ensures DeliveredTo(Application, DispatchAll([e0, e1, e2]))
      == DeliveredTo(Application, HandleInput(e0).calls)
       + (DeliveredTo(Application, HandleInput(e1).calls) + DeliveredTo(Application, HandleInput(e2).calls))
  {
    var a, b, c := HandleInput(e0).calls, HandleInput(e1).calls, HandleInput(e2).calls;
    DispatchThree(e0, e1, e2);
    DeliveredToAppend(Application, b, c);
    DeliveredToAppend(Application, a, b + c);
  }

  /** What the application receives from the three drag-only events of a drag. */
  lemma DragReachesApplication(p0: Point, p1: Point, p2: Point, startHandled: bool, moveHandled: bool)
    ensures DeliveredTo(Application, DispatchAll(
      [DragOnly(GestureStart, p0, startHandled), DragOnly(GestureMove, p1, moveHandled), DragOnly(GestureEnd, p2, false)]))
      == (if startHandled then [] else [BeginDrag(p0)]) + ((if moveHandled then [] else [DragMove(p1)]) + [EndDrag])
  {
    DeliveredOverThree(DragOnly(GestureStart, p0, startHandled), DragOnly(GestureMove, p1, moveHandled), DragOnly(GestureEnd, p2, false));
    DragOnlyReachesApplication(Start, GestureStart, p0, startHandled);
    DragOnlyReachesApplication(Move, GestureMove, p1, moveHandled);
    DragOnlyReachesApplication(End, GestureEnd, p2, false);
  }

  /** Start, Move, End with the overlay declining: the application sees the whole drag. */
  lemma UnhandledDragReachesApplication(p0: Point, p1: Point, p2: Point)
    ensures DeliveredTo(Application, DispatchAll(
      [DragOnly(GestureStart, p0, false), DragOnly(GestureMove, p1, false), DragOnly(GestureEnd, p2, false)]))
      == [BeginDrag(p0), DragMove(p1), EndDrag]
  {
    DragReachesApplication(p0, p1, p2, false, false);
  }

  /**
   * The overlay's acceptance of BeginDrag does not capture the drag: when it
   * declines the following DragMove, the application receives that move and
   * the end of the drag.
   */
  lemma OverlayStartDoesNotCaptureDrag(p0: Point, p1: Point, p2: Point)
    ensures DeliveredTo(Application, DispatchAll(
      [DragOnly(GestureStart, p0, true), DragOnly(GestureMove, p1, false), DragOnly(GestureEnd, p2, false)]))
      == [DragMove(p1), EndDrag]
  {
    DragReachesApplication(p0, p1, p2, true, false);
  }
}
