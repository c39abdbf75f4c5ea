/** `Stage.initOn`: a drag handler and a stage wired together by three
    callbacks that share two variables, the last reported direction and
    whether a gesture began since the last one was handled; plus the pagers'
    transition-end listeners and the deferred first reveal. The whole widget
    is one immutable record, and every input the browser delivers is one
    transition of it. */
module StageInit {
  import opened Options
  import opened DragHandler
  import opened Stage

  /** The variables the callbacks close over: `lastReaction` (`None` for the
      empty string) and `userInteracted`. */
  datatype Glue = Glue(lastReaction: Option<Direction>, userInteracted: bool)

  /** `revealPending` is true while the deferred first reveal has been
      scheduled and has not yet run. */
  datatype Carousel = Carousel(drag: DragState, stage: StageState, glue: Glue, revealPending: bool)

  /** What the browser delivers. Button or touch start, movement, and
      release, leave, touch end or touch cancel go to the drag handler;
      a transition end comes from the inner element of pager `pager`; the
      reveal timer is the zero-delay timeout scheduled at setup. */
  datatype Input =
    | PointerDown(event: PointerEvent)
    | PointerMove(event: PointerEvent)
    | PointerUp(event: PointerEvent)
    | PagerTransitionEnd(pager: int)
    | RevealTimer

  /** Sets up a carousel on `host`, whose drag handler listens on an
      interaction element with bounds `handler`. */
  function InitOn(host: HostElement, handler: Bounds): (c: Carousel)
    ensures c.stage.offset == 0 && c.stage.numSlides == host.itemCount && c.stage.showing == {}
    ensures c.stage.config.mode == RoundRobin && c.stage.config.autostart
    ensures c.stage.config.autoscrollEnabled <==> host.autoscrollAttribute == Some("true")
    ensures c.glue == Glue(None, false)
    ensures c.drag.container == Some(handler) && !c.drag.isMouseDown && !c.drag.isDragging && c.drag.lastX == Some(0)
    ensures c.revealPending
  {
    var stage := SetElement(NewStage(), host);
    Carousel(Attach(NewDragHandler(), handler), stage, Glue(None, false), stage.config.autostart)
  }

  /** The begin callback notes that the user interacted. */
  function OnBegin(g: Glue): (r: Glue)
    ensures r.userInteracted && r.lastReaction == g.lastReaction
  {
    g.(userInteracted := true)
  }

  /** The direction callback records the latest direction. */
  function OnReaction(g: Glue, d: Direction): (r: Glue)
    ensures r.lastReaction == Some(d) && r.userInteracted == g.userInteracted
  {
    g.(lastReaction := Some(d))
  }

  /** The end callback: without an interaction since the last handled end it
      does nothing; otherwise a last reaction to the left shows the next slide,
      anything else, a reaction to the right or none at all, the previous one,
      and both shared variables are reset. */
  function OnEnd(c: Carousel): (r: Carousel)
    ensures !c.glue.userInteracted ==> r == c
    ensures c.glue.userInteracted ==> r.glue == Glue(None, false)
    ensures c.glue.userInteracted && c.glue.lastReaction == Some(Left) ==> r.stage == ShowNext(c.stage).stage
    ensures c.glue.userInteracted && c.glue.lastReaction != Some(Left) ==> r.stage == ShowPrevious(c.stage).stage
    ensures r.drag == c.drag && r.revealPending == c.revealPending
  {
    if !c.glue.userInteracted then c
    else
      var shifted := if c.glue.lastReaction == Some(Left) then ShowNext(c.stage) else ShowPrevious(c.stage);
      c.(stage := shifted.stage, glue := Glue(None, false))
  }

  /** Hands a callback invocation of the drag handler to its subscriber: the
      begin callback notes an interaction, the direction callback records the
      direction, the end callback may step the stage. Only the end callback
      touches the stage, and no callback touches the drag handler. */
  function Deliver(c: Carousel, sig: Option<Signal>): (r: Carousel)
    ensures sig.None? ==> r == c
    ensures r.drag == c.drag && r.revealPending == c.revealPending
    ensures (sig.None? || !sig.value.Ended?) ==> r.stage == c.stage
    ensures sig.Some? && sig.value.Began? ==> r.glue == Glue(c.glue.lastReaction, true)
    ensures sig.Some? && sig.value.Reacted? ==> r.glue == Glue(Some(sig.value.direction), c.glue.userInteracted)
    ensures sig.Some? && sig.value.Ended? ==> r == OnEnd(c)
  {
    match sig
    case None => c
    case Some(Began(_)) => c.(glue := OnBegin(c.glue))
    case Some(Reacted(d, _)) => c.(glue := OnReaction(c.glue, d))
    case Some(Ended(_)) => OnEnd(c)
  }

  /** A pager's transition end counts only when that pager is marked as
      showing, and then advances the stage only when autoscroll is on. */
  function OnPagerTransitionEnd(st: StageState, pager: int): (r: StageState)
    ensures r != st ==> pager in st.showing && st.config.autoscrollEnabled
    ensures pager in st.showing && st.config.autoscrollEnabled ==> r == ShowNext(st).stage
    ensures r.numSlides == st.numSlides && r.config == st.config
  {
    if pager in st.showing && st.config.autoscrollEnabled then ShowNext(st).stage else st
  }

  /** The deferred first reveal marks slide 0 as showing, as a move from "no
      slide" (-1) to 0; it leaves the offset alone and runs once. */
  function Reveal(c: Carousel): (r: Carousel)
    ensures !r.revealPending
    ensures c.revealPending ==> r.stage.showing == c.stage.showing + (if Present(c.stage, 0) then {0} else {})
    ensures !c.revealPending ==> r == c
    ensures r.stage.offset == c.stage.offset && r.drag == c.drag && r.glue == c.glue
    ensures r.stage.numSlides == c.stage.numSlides && r.stage.config == c.stage.config
  {
    if c.revealPending then c.(stage := Toggle(c.stage, -1, 0), revealPending := false) else c
  }

  /** One delivered input: pointer input goes through the drag handler and
      on to the callback it invokes; a transition end and the reveal timer
      leave the drag handler and the shared variables alone. */
  function Feed(c: Carousel, i: Input): (r: Carousel)
    ensures i.PointerDown? ==>
              r.drag == Begin(c.drag, i.event).state && r.stage == c.stage && r.glue == Glue(c.glue.lastReaction, true)
    ensures i.PointerMove? ==>
              && r.drag == DetectMovement(c.drag, i.event).state && r.stage == c.stage
              && r.glue.userInteracted == c.glue.userInteracted
              && (r.glue.lastReaction != c.glue.lastReaction ==> DetectMovement(c.drag, i.event).signal.Some?)
              && (DetectMovement(c.drag, i.event).signal.Some? ==>
                    r.glue.lastReaction == Some(DetectMovement(c.drag, i.event).signal.value.direction))
    ensures i.PointerUp? ==> r == OnEnd(c.(drag := End(c.drag, i.event).state))
    ensures i.PagerTransitionEnd? ==>
              r.drag == c.drag && r.glue == c.glue && r.stage == OnPagerTransitionEnd(c.stage, i.pager)
    ensures i.RevealTimer? ==> r == Reveal(c)
    ensures r.revealPending == (c.revealPending && !i.RevealTimer?)
  {
    match i
    case PointerDown(e) =>
      var step := Begin(c.drag, e); Deliver(c.(drag := step.state), step.signal)
    case PointerMove(e) =>
      var step := DetectMovement(c.drag, e); Deliver(c.(drag := step.state), step.signal)
    case PointerUp(e) =>
      var step := End(c.drag, e); Deliver(c.(drag := step.state), step.signal)
    case PagerTransitionEnd(p) => c.(stage := OnPagerTransitionEnd(c.stage, p))
    case RevealTimer => Reveal(c)
  }

  /** A sequence of delivered inputs, in order. */
  function FeedAll(c: Carousel, inputs: seq<Input>): Carousel
    decreases |inputs|
  {
    if |inputs| == 0 then c else FeedAll(Feed(c, inputs[0]), inputs[1..])
  }
}
