/** The drag gesture recogniser of the stage slider: a small state machine fed
    with pointer and touch events. It remembers the last horizontal position it
    reacted to and reports, through three callbacks, that a gesture began, that
    the pointer travelled far enough to the left or to the right, and that the
    gesture ended. Each transition below returns the new state together with
    the callback invocation it makes, if any. */
module DragHandler {
  import opened Options
  import Strings

  /** Pixels the pointer has to travel beyond the last reaction point before a
      new direction is reported. */
  const Threshold: int := 15

  datatype Direction = Left | Right

  /** What the handler reads from a browser event. `eventType` is the event's
      `type`; `pageX` is the event's own coordinate, absent when the event has
      none; `touchPageX` is the coordinate of the first touch point reached
      through the event's `originalEvent.touches` list, absent when any link of
      that chain is missing. */
  datatype PointerEvent = PointerEvent(eventType: string, pageX: Option<int>, touchPageX: Option<int>)

  /** The layout box of the element the handlers are attached to. */
  datatype Bounds = Bounds(offsetLeft: int, offsetWidth: int)

  /** `lastX` is `lastMousePositionX`, absent after it was assigned an event
      without a coordinate; `container` is the element the listeners were
      attached to, absent before attachment. */
  datatype DragState = DragState(lastX: Option<int>, isMouseDown: bool, isDragging: bool, container: Option<Bounds>)

  /** One invocation of an injected callback, with the arguments it receives:
      the begin callback, the direction callback, or the end callback. */
  datatype Signal =
    | Began(event: PointerEvent)
    | Reacted(direction: Direction, event: PointerEvent)
    | Ended(event: PointerEvent)

  /** The outcome of handling one event. */
  datatype Step = Step(state: DragState, signal: Option<Signal>)

  /** A freshly constructed handler: position 0, no button held, not attached. */
  function NewDragHandler(): (s: DragState)
    ensures s.lastX == Some(0) && !s.isMouseDown && !s.isDragging && s.container == None
  {
    DragState(Some(0), false, false, None)
  }

  /** Attaching the listeners records the element whose bounds later gate movement. */
  function Attach(s: DragState, b: Bounds): (r: DragState)
    ensures r.container == Some(b)
    ensures r.lastX == s.lastX && r.isMouseDown == s.isMouseDown && r.isDragging == s.isDragging
  {
    s.(container := Some(b))
  }

  /** The event's type names a touch event: its `type` contains "touch". */
  predicate IsTouchEvent(e: PointerEvent)
  {
    Strings.IndexOf(e.eventType, "touch") > -1
  }

  /** The horizontal coordinate of an event. Touch events prefer the first touch
      point, but only when that coordinate is present and non-zero; everything
      else, and every fallback, reads the event's own `pageX`. */
  function EventOffsetX(e: PointerEvent): (r: Option<int>)
    ensures r == e.pageX || (r == e.touchPageX && r != Some(0))
    ensures !IsTouchEvent(e) ==> r == e.pageX
    ensures IsTouchEvent(e) && e.touchPageX.Some? && e.touchPageX.value != 0 ==> r == e.touchPageX
    ensures (e.touchPageX == None || e.touchPageX == Some(0)) ==> r == e.pageX
  {
    if IsTouchEvent(e) && e.touchPageX.Some? && e.touchPageX.value != 0 then e.touchPageX
    else e.pageX
  }

  /** Pressing a button or touching the element starts a gesture: the button is
      down, no drag has been seen yet, and the start position becomes the
      reference point. The begin callback is invoked. */
  function Begin(s: DragState, e: PointerEvent): (r: Step)
    ensures r.state.isMouseDown && !r.state.isDragging
    ensures r.state.lastX == EventOffsetX(e)
    ensures r.state.container == s.container
    ensures r.signal == Some(Began(e))
  {
    Step(s.(isDragging := false, isMouseDown := true, lastX := EventOffsetX(e)), Some(Began(e)))
  }

  /** Releasing, leaving or cancelling ends the gesture from any state, even one
      that never began: both flags are cleared, the reference point is kept, and
      the end callback is always invoked. */
  function End(s: DragState, e: PointerEvent): (r: Step)
    ensures !r.state.isMouseDown && !r.state.isDragging
    ensures r.state.lastX == s.lastX && r.state.container == s.container
    ensures r.signal == Some(Ended(e))
  {
    Step(s.(isMouseDown := false, isDragging := false), Some(Ended(e)))
  }

  /** `userDragsToRight`: the position lies strictly more than the threshold to
      the right of the reference point. A missing value on either side compares
      false, as `undefined` does. */
  predicate DragsToRight(last: Option<int>, x: Option<int>)
  {
    last.Some? && x.Some? && last.value + Threshold < x.value
  }

  /** `userDragsToLeft`: the position lies strictly more than the threshold to
      the left of the reference point. */
  predicate DragsToLeft(last: Option<int>, x: Option<int>)
  {
    last.Some? && x.Some? && last.value - Threshold > x.value
  }

  /** `isMovementInsideBounds`: the listeners are attached, and the position is
      neither left of the element's left edge nor right of its right edge. A
      missing position fails neither comparison and so counts as inside. */
  function InsideBounds(container: Option<Bounds>, x: Option<int>): (r: bool)
    ensures r <==> container.Some? &&
                   (x.Some? ==> container.value.offsetLeft <= x.value <= container.value.offsetLeft + container.value.offsetWidth)
  {
    if container.None? then false
    else if x.Some? && x.value < container.value.offsetLeft then false
    else if x.Some? && x.value > container.value.offsetLeft + container.value.offsetWidth then false
    else true
  }

  /** The reference point is unset: a stored position that is not positive. */
  predicate Unanchored(last: Option<int>)
  {
    last.Some? && last.value <= 0
  }

  /** `detectDragMovementDirection`: every movement marks the handler as
      dragging. Without a pressed button, or outside the element, nothing else
      happens. Inside the element, a non-positive reference point absorbs the
      position; otherwise a move of more than the threshold to the right or to
      the left is reported to the direction callback and becomes the new
      reference point. */
  function DetectMovement(s: DragState, e: PointerEvent): (r: Step)
    ensures r.state.isDragging
    ensures r.state.isMouseDown == s.isMouseDown && r.state.container == s.container
    // The position moves only when a direction is reported or the reference point is absorbed.
    ensures r.state.lastX == s.lastX || r.state.lastX == EventOffsetX(e)
    ensures r.state.lastX != s.lastX ==>
              s.isMouseDown && InsideBounds(s.container, EventOffsetX(e)) && (Unanchored(s.lastX) || r.signal.Some?)
    // Nothing but a direction is ever reported, and only with a pressed button inside the element.
    ensures r.signal.Some? ==>
              && r.signal.value.Reacted?
              && r.signal.value.event == e
              && s.isMouseDown
              && InsideBounds(s.container, EventOffsetX(e))
              && !Unanchored(s.lastX)
              && r.state.lastX == EventOffsetX(e)
    ensures !s.isMouseDown ==> r.signal == None && r.state.lastX == s.lastX
    ensures !InsideBounds(s.container, EventOffsetX(e)) ==> r.signal == None && r.state.lastX == s.lastX
    ensures s.isMouseDown && InsideBounds(s.container, EventOffsetX(e)) && Unanchored(s.lastX) ==>
              r.signal == None && r.state.lastX == EventOffsetX(e)
    // Classification is strict in both directions.
    ensures s.isMouseDown && InsideBounds(s.container, EventOffsetX(e)) && !Unanchored(s.lastX) ==>
              && (r.signal == Some(Reacted(Right, e)) <==> DragsToRight(s.lastX, EventOffsetX(e)))
              && (r.signal == Some(Reacted(Left, e)) <==> DragsToLeft(s.lastX, EventOffsetX(e)))
  {
    var dragging := s.(isDragging := true);
    if !s.isMouseDown then Step(dragging, None)
    else
      var x := EventOffsetX(e);
      if !InsideBounds(s.container, x) then Step(dragging, None)
      else if Unanchored(s.lastX) then Step(dragging.(lastX := x), None)
      else if DragsToRight(s.lastX, x) then Step(dragging.(lastX := x), Some(Reacted(Right, e)))
      else if DragsToLeft(s.lastX, x) then Step(dragging.(lastX := x), Some(Reacted(Left, e)))
      else Step(dragging, None)
  }

  /** A reported movement clears the threshold in the reported direction. */
  lemma ReactionClearsThreshold(s: DragState, e: PointerEvent)
    requires DetectMovement(s, e).signal.Some?
    ensures var d := DetectMovement(s, e).signal.value.direction;
            var x := EventOffsetX(e);
            && s.lastX.Some? && x.Some?
            && (d == Right ==> x.value > s.lastX.value + Threshold)
            && (d == Left ==> x.value < s.lastX.value - Threshold)
  {
  }

  /** With the reference point at 100, positions 85 through 115 report
      nothing, 116 reports right and 84 reports left. */
  lemma ThresholdExamples(b: Bounds)
    requires b.offsetLeft <= 84 && 116 <= b.offsetLeft + b.offsetWidth
    ensures var s := DragState(Some(100), true, false, Some(b));
            && DetectMovement(s, PointerEvent("mousemove", Some(115), None)).signal == None
            && DetectMovement(s, PointerEvent("mousemove", Some(85), None)).signal == None
            && DetectMovement(s, PointerEvent("mousemove", Some(116), None)).signal == Some(Reacted(Right, PointerEvent("mousemove", Some(116), None)))
            && DetectMovement(s, PointerEvent("mousemove", Some(84), None)).signal == Some(Reacted(Left, PointerEvent("mousemove", Some(84), None)))
  {
  }

  /** Ending twice is the same as ending once. */
  lemma EndIdempotent(s: DragState, e: PointerEvent, e': PointerEvent)
    ensures End(End(s, e).state, e').state == End(s, e).state
  {
  }
}
