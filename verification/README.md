# Stage carousel: drag recogniser and stage offset controller

A Dafny model of the two state machines that hold the logic of the
`stage-autoscroll` carousel. The rest of the widget is DOM construction.

- **Drag recogniser** (`StageSliderDragHandler`, modules `DragHandler` and
  `DragRuns`). It keeps the last horizontal position it reacted to
  (`lastMousePositionX`), whether a button is held (`isMouseDown`), a
  `isDragging` flag, the fixed 15-pixel threshold, and the bounds of the
  element it listens on. Starting, moving and ending a gesture are pure
  functions. Each returns the new state together with the callback it
  invokes, if any: begin, direction (`'left'`/`'right'`) or end.
  `getEventOffsetX` is a function over an abstract event record. A missing
  coordinate is `None`. Every JavaScript comparison against `undefined` is
  false, and the model keeps that exactly. So a missing coordinate counts as
  inside the bounds, is absorbed by an unset reference point, and never
  reports a direction.
- **Stage** (`Stage`, module `Stage`; repeated stepping in `StageCycles`).
  It holds `offset`, `numSlides`, the configured `mode`, the autoscroll and
  autostart flags, and the set of indices whose slide and pager carry the
  "showing" classes. `showNext` and `showPrevious` wrap in `'roundrobin'`
  mode and hold at the end in any other mode. They ask for a visual toggle
  only when the offset changed.
- **`Stage.initOn` glue** (modules `StageInit` and `StageInitRuns`). The
  three callbacks share `lastReaction` and `userInteracted`. Pager
  transition ends autoscroll, and the deferred first reveal is
  `toggle(-1, 0)`. The whole widget is one record, and each browser input
  is one transition `Feed`.

The headline results:
- a gesture begun at 100 and moved to 130 reports `'right'`, because
  `beginDragDetection` already stored 100 as the reference point;
- every whole gesture moves the stage by exactly one step;
- with at least one slide, the offset stays a slide index under every input
  sequence from set-up, wherever the reveal timer fires in it;
- once the first reveal has run on a fresh carousel, exactly the current
  slide stays marked. A gesture completed before the timer fires can leave
  two slides marked (three slides, a left drag, then the timer:
  `GestureBeforeRevealMarksTwoSlides`);
- round-robin stepping is cyclic, and `n` steps over `n` slides return to
  the start;
- with three slides in round-robin mode, press at 100, move to 130 and
  release ends on slide 2.

Three facts about the code shape the model:
- the stage offset starts at 0 (Stage.js:4), and the reveal marks slide 0
  without touching the offset;
- a movement is absorbed only when the stored reference point is ≤ 0
  (StageSliderDragHandler.js:107). The press already stores its position
  (StageSliderDragHandler.js:39), so the first movement after a press at a
  positive position is measured from the press;
- any mode other than `'roundrobin'` clamps at the ends (Stage.js:92, 104),
  and the default mode is round-robin.

Slides and pagers are identified by index. An index names an existing
element exactly when it lies in `[0, numSlides)`: pagers are created for
those indices, and the slides are assumed to be numbered the same way. A
toggle of an index outside that range finds no element and changes
nothing. The touch coordinate is read through `event.originalEvent.touches`.
The model takes that value as an optional field of the event record.

## Model

| member | source | states |
|---|---|---|
| Strings.IndexOf | StageSliderDragHandler.js:182 | `indexOf` returns -1 exactly when the pattern occurs nowhere; otherwise it returns the first position where it occurs |
| DragHandler.EventOffsetX | StageSliderDragHandler.js:179-193 | the coordinate is always either the event's own `pageX` or a non-zero first-touch coordinate. Non-touch events give `pageX`. Touch events give the first touch point when it is present and non-zero, and fall back to `pageX` otherwise |
| DragHandler.NewDragHandler | StageSliderDragHandler.js:8-23 | a new handler has reference point 0, both flags false, and no attached element |
| DragHandler.Attach | StageSliderDragHandler.js:236 | attaching records the listening element's bounds and leaves the gesture state alone |
| DragHandler.Begin | StageSliderDragHandler.js:33-44 | a press sets `isMouseDown`, clears `isDragging`, stores the event's coordinate as the reference point, keeps the bounds, and invokes the begin callback with the event |
| DragHandler.End | StageSliderDragHandler.js:52-59 | from any state, even with no preceding press, ending clears both flags, keeps the reference point, and always invokes the end callback |
| DragHandler.EndIdempotent | StageSliderDragHandler.js:52-59 | a second end leaves the state exactly as the first one left it |
| DragHandler.InsideBounds | StageSliderDragHandler.js:151-168 | movement is inside exactly when an element is attached and the coordinate, if any, lies in the closed interval from `offsetLeft` to `offsetLeft + offsetWidth`; both edges count as inside |
| DragHandler.DetectMovement | StageSliderDragHandler.js:92-124 | movement always sets `isDragging`. Without a pressed button, or outside the bounds, it reports nothing and keeps the reference point. Inside, a reference point ≤ 0 absorbs the coordinate silently. Otherwise `'right'` is reported iff the coordinate exceeds reference + 15, and `'left'` iff it is below reference − 15. A report always moves the reference point to the coordinate. When nothing is reported, the point moves only by absorption |
| DragHandler.ReactionClearsThreshold | StageSliderDragHandler.js:68-80 | a reported direction means the pointer is strictly more than 15 px beyond the reference point in that direction |
| DragHandler.ThresholdExamples | StageSliderDragHandler.js:68-80 | with the reference point at 100: 115 and 85 report nothing, 116 reports right, 84 reports left |
| DragRuns.RunMoves | StageSliderDragHandler.js:92-124 | over any stream of movements only direction callbacks fire, no more callbacks than events, each carrying one of the stream's events. The button state and bounds never change. With no button held nothing fires and the reference point stays put |
| DragRuns.ReactionsAreSpaced | StageSliderDragHandler.js:107-119 | within one gesture with positive coordinates, each reported direction lies more than 15 px beyond the previous report point, the first measured from the reference point |
| DragRuns.GestureMeasuresFromBegin | StageSliderDragHandler.js:33-44 | after a press at a positive position, reports are measured from the press position, and a first in-bounds movement more than 15 px beyond it is reported at once, in its direction |
| DragRuns.MissingReferenceSilencesMoves | StageSliderDragHandler.js:107-119 | a missing reference point is neither absorbed nor compared, so it stays missing and no direction is reported |
| DragRuns.PressWithoutCoordinateIsSilent | StageSliderDragHandler.js:33-44 | after a press whose event has no coordinate, no movement of that gesture reports a direction |
| Stage.NewStage | Stage.js:1-13 | a new stage has offset 0, no slides, nothing marked, round-robin mode, autoscroll off and autostart on |
| Stage.SetElement | Stage.js:25-33 | the slide count becomes the host's item count. When the `data-stage-autoscroll` attribute is present, autoscroll is on exactly when it reads `'true'`; when absent, autoscroll is untouched. Nothing else changes |
| Stage.Toggle | Stage.js:112-143 | equal indices change nothing. Otherwise the old index is unmarked and the new one marked, each only when it names an existing element. Every other index, and an old or new index naming no element, keeps its mark |
| Stage.MoveTo | Stage.js:95-97 | a sync from the old to the new offset is requested iff the offsets differ, and the marks follow it |
| Stage.ShowNext | Stage.js:100-110 | from a valid index, the result is a valid index: `(offset + 1) mod numSlides` in round-robin and `min(offset + 1, numSlides − 1)` otherwise. A sync is requested iff the offset changed, and the marks follow the move |
| Stage.ShowPrevious | Stage.js:88-98 | from a valid index, the result is a valid index: `(offset − 1) mod numSlides` in round-robin and `max(offset − 1, 0)` otherwise. A sync is requested iff the offset changed |
| Stage.StepsKeepSynced | Stage.js:88-143 | when exactly the current slide is marked, both steps keep exactly the (new) current slide marked |
| Stage.RoundRobinStepsInvert | Stage.js:88-110 | in round-robin, next-then-previous and previous-then-next return the identical stage |
| Stage.ClampedStepsInvert | Stage.js:88-110 | in any other mode the same round trips hold away from the end reached in the direction of travel |
| Stage.EndsBehaviour | Stage.js:91-104 | at the last slide next wraps to 0 or stays; at the first slide previous wraps to `numSlides − 1` or stays. A clamped end and a single round-robin slide request no sync |
| Stage.NoSlidesLeavesRange | Stage.js:91-92 | with no slides, round-robin previous from 0 lands on −1 and requests a sync from 0 to −1, though no mark changes. Clamped next from 0 also lands on −1 |
| Stage.DefaultModeClamps | Stage.js:20-23 | the declared `'default'` mode is not round-robin: at the last slide next, and at the first slide previous, change nothing and request no sync |
| StageCycles.RoundRobinForwardCycle | Stage.js:100-110 | `k` round-robin next steps put the offset at `(offset + k) mod numSlides`, and exactly that slide is marked |
| StageCycles.RoundRobinBackwardCycle | Stage.js:88-98 | `k` round-robin previous steps put the offset at `(offset − k) mod numSlides`, and exactly that slide is marked |
| StageCycles.RoundRobinForwardTurn | Stage.js:100-110 | `numSlides` round-robin next steps return the identical stage |
| StageCycles.RoundRobinBackwardTurn | Stage.js:88-98 | `numSlides` round-robin previous steps return the identical stage |
| StageCycles.ClampedForwardSaturates | Stage.js:100-110 | `k` clamped next steps put the offset at `min(offset + k, numSlides − 1)` |
| StageCycles.ClampedBackwardSaturates | Stage.js:88-98 | `k` clamped previous steps put the offset at `max(offset − k, 0)` |
| StageInit.InitOn | Stage.js:1-76 | set-up gives offset 0, round-robin, autostart on, and autoscroll on iff the attribute reads `'true'`. The slide count is the item count and nothing is marked. The shared variables are empty and the handler is attached and idle (no button held, not dragging, reference point 0). The first reveal is scheduled |
| StageInit.OnBegin | Stage.js:42-44 | the begin callback marks an interaction and keeps the recorded direction |
| StageInit.OnReaction | Stage.js:62-65 | the direction callback records the reported direction |
| StageInit.OnEnd | Stage.js:46-60 | without an interaction since the last handled end nothing changes. Otherwise `'left'` shows the next slide and anything else, including no direction, the previous one. Afterwards both shared variables are reset |
| StageInit.OnPagerTransitionEnd | Stage.js:168-178 | the stage changes only for a pager marked as showing with autoscroll on, and then by one next step |
| StageInit.Deliver | StageSliderDragHandler.js:41-43 | a callback invocation (also lines 56-58 and 122-124) reaches its subscriber: begin marks an interaction, a direction is recorded, end runs the end callback. Only the end callback touches the stage |
| StageInit.Feed | StageSliderDragHandler.js:227-234 | press, movement and release/leave/cancel go through begin, movement detection and end, and on to the callback each invokes; a reported movement records its direction. A pager transition end (Stage.js:168) and the reveal timer leave the drag handler and shared variables alone. Only the timer clears the pending reveal |
| StageInit.Reveal | Stage.js:83-86 | the pending reveal marks slide 0 (when it exists) on top of the current marks, keeps the offset, the slide count and the configuration, and runs only once |
| StageInitRuns.FeedKeepsGlueConsistent | Stage.js:42-65 | each input keeps "interaction in progress iff the button is held, and no direction outside a gesture" |
| StageInitRuns.FeedAllKeepsGlueConsistent | Stage.js:42-65 | every input sequence keeps that consistency, so no direction is carried over into a later gesture |
| StageInitRuns.InitOnIsGlueConsistent | Stage.js:38-39 | a fresh carousel starts consistent |
| StageInitRuns.FeedKeepsSettled | Stage.js:88-178 | each input keeps the offset a slide index with exactly that slide marked |
| StageInitRuns.FeedAllKeepsSettled | Stage.js:88-178 | every input sequence keeps the offset a slide index with exactly that slide marked |
| StageInitRuns.FeedKeepsInRange | Stage.js:88-178 | from a valid offset, each input leaves a valid offset and the slide count unchanged |
| StageInitRuns.FeedAllKeepsInRange | Stage.js:88-178 | from a valid offset, every input sequence leaves a valid offset |
| StageInitRuns.SetUpStaysInRange | Stage.js:35-110 | with at least one slide, every input sequence after set-up leaves the offset a slide index, wherever the reveal timer fires |
| StageInitRuns.RevealSettles | Stage.js:74-86 | with at least one slide, the first reveal of a fresh carousel marks exactly slide 0, the current offset |
| StageInitRuns.MovesRecordLastDirection | Stage.js:62-65 | movements change only the drag state and the recorded direction, which becomes the last direction reported |
| StageInitRuns.GestureShiftsOnce | Stage.js:46-60 | a whole press–moves–release gesture steps the stage once: next iff the last reported direction was left, previous otherwise, also for a click. The shared variables end up reset |
| StageInitRuns.AutoscrollFromCurrentPagerOnly | Stage.js:168-178 | once settled, only the current slide's pager with autoscroll on moves the stage, by one next step; every other transition end changes nothing |
| StageInitRuns.GestureBeforeRevealMarksTwoSlides | Stage.js:83-143 | a gesture completed before the reveal timer fires (three slides, press at 100, move to 70, release) moves to slide 1; the reveal then marks slide 0 as well, leaving two slides marked |
| StageInitRuns.ThreeSlidesDragRightWrapsToLast | Stage.js:35-110 | three round-robin slides, reveal, press at 100, move to 130, release: the offset is 2 and only slide 2 is marked |

## Left out

- `registerEventHandling`, `unregisterEventHandling` and the passive-listener probe (StageSliderDragHandler.js:202-257) are browser listener plumbing. Only the recorded element (`Attach`) and the mapping of event names to begin, move and end (the `Input` constructors) are modelled. `unregisterEventHandling` removes freshly bound functions and so detaches nothing; this is not modelled.
- `addInteractionHandlerElement` and `addPagers` (Stage.js:145-182) build DOM nodes. Pagers are the indices `0 .. numSlides − 1`, and the "showing" CSS classes of slides and pagers are one set of indices.
- The zero-delay `setTimeout` of `autostartSlides` (Stage.js:85) is the explicit `RevealTimer` input, which may occur anywhere in an input sequence. Real timer latency is not modelled. The offset stays in range in every order; the "exactly one slide marked" invariant is proved only after the reveal, and a gesture completed before it can leave two slides marked (three slides, a left drag, then the timer: `GestureBeforeRevealMarksTwoSlides`).
- The attached element's `offsetLeft` and `offsetWidth` are read live on every movement (StageSliderDragHandler.js:158, 162). The model fixes them at attachment, so layout changes between movements are not modelled.
- Callbacks that are not registered are not modelled. `Stage.initOn` always registers all three, so every step delivers its callback.
- The return value of `detectDragMovementDirection` is not modelled, because no caller uses it.
- Console logging, CSS transitions and animation timing are left out.
- JavaScript coercions other than `undefined` are left out: `NaN`, fractional coordinates and `this.offset || 0`. Coordinates and offsets are integers.
- Stage.ShowNext: the new offset is characterised only for a starting offset in `[0, numSlides)`. For other offsets the source's arithmetic is modelled but not stated in the contract.
- Stage.ShowPrevious: as for `ShowNext`, the offset is characterised only for a starting offset in `[0, numSlides)`.
