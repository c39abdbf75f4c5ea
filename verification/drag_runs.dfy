/** Runs of the drag recogniser over a stream of movement events. */
module DragRuns {
  import opened Options
  import opened DragHandler

  /** The final state after a stream of movements, and the callback invocations made on the way. */
  datatype Run = Run(state: DragState, signals: seq<Signal>)

  function SignalList(sig: Option<Signal>): seq<Signal>
  {
    match sig
    case None => []
    case Some(x) => [x]
  }

  /** Feeds each event in turn to the movement handler. */
  function RunMoves(s: DragState, es: seq<PointerEvent>): (r: Run)
    ensures r.state.isMouseDown == s.isMouseDown && r.state.container == s.container
    ensures |es| > 0 ==> r.state.isDragging
    ensures |r.signals| <= |es|
    ensures forall k :: 0 <= k < |r.signals| ==> r.signals[k].Reacted? && r.signals[k].event in es
    ensures !s.isMouseDown ==> r.signals == [] && r.state.lastX == s.lastX
    decreases |es|
  {
    if |es| == 0 then Run(s, [])
    else
      var first := DetectMovement(s, es[0]);
      var rest := RunMoves(first.state, es[1..]);
      Run(rest.state, SignalList(first.signal) + rest.signals)
  }

  /** The direction of the last reaction in `sigs`, or `prior` when there is none. */
  function LastDirection(sigs: seq<Signal>, prior: Option<Direction>): Option<Direction>
    decreases |sigs|
  {
    if |sigs| == 0 then prior
    else if sigs[|sigs| - 1].Reacted? then Some(sigs[|sigs| - 1].direction)
    else LastDirection(sigs[..|sigs| - 1], prior)
  }

  /** Each reaction in `sigs` lies more than the threshold beyond the previous
      one, in its own direction, the first one measured from `from`. */
  predicate Spaced(from: int, sigs: seq<Signal>)
    decreases |sigs|
  {
    |sigs| == 0 ||
    (sigs[0].Reacted? &&
     var x := EventOffsetX(sigs[0].event);
     && x.Some?
     && (sigs[0].direction == Right ==> x.value > from + Threshold)
     && (sigs[0].direction == Left ==> x.value < from - Threshold)
     && Spaced(x.value, sigs[1..]))
  }

  /** Every event of the stream carries a positive coordinate. */
  predicate PositiveCoordinates(es: seq<PointerEvent>)
  {
    forall i :: 0 <= i < |es| ==> EventOffsetX(es[i]).Some? && EventOffsetX(es[i]).value > 0
  }

  /** Within one gesture whose reference point is positive and whose
      coordinates are positive, consecutive reactions are each more than the
      threshold beyond the point of the previous one: every reaction resets
      the reference point, and nothing else moves it. */
  lemma {:induction false} ReactionsAreSpaced(s: DragState, es: seq<PointerEvent>, from: int)
    requires s.isMouseDown && s.lastX == Some(from) && from > 0
    requires PositiveCoordinates(es)
    ensures Spaced(from, RunMoves(s, es).signals)
    decreases |es|
  {
    if |es| > 0 {
      var first := DetectMovement(s, es[0]);
      var x := EventOffsetX(es[0]);
      assert PositiveCoordinates(es[1..]) by {
        forall i | 0 <= i < |es[1..]|
          ensures EventOffsetX(es[1..][i]).Some? && EventOffsetX(es[1..][i]).value > 0
        {
          assert es[1..][i] == es[i + 1];
        }
      }
      if first.signal.Some? {
        ReactionClearsThreshold(s, es[0]);
        ReactionsAreSpaced(first.state, es[1..], x.value);
        var sigs := RunMoves(s, es).signals;
        assert sigs == [first.signal.value] + RunMoves(first.state, es[1..]).signals;
        assert sigs[1..] == RunMoves(first.state, es[1..]).signals;
      } else {
        assert first.state.lastX == Some(from);
        ReactionsAreSpaced(first.state, es[1..], from);
        assert RunMoves(s, es).signals == RunMoves(first.state, es[1..]).signals;
      }
    }
  }

  /** A gesture begun at a positive position measures its first reaction from
      that position, not from the first movement: a first movement inside the
      bounds and more than the threshold beyond the press position is reported
      at once (beginning at 100 and moving to 130 reports right). */
  lemma GestureMeasuresFromBegin(s: DragState, begin: PointerEvent, es: seq<PointerEvent>)
    requires EventOffsetX(begin).Some? && EventOffsetX(begin).value > 0
    requires PositiveCoordinates(es)
    ensures Spaced(EventOffsetX(begin).value, RunMoves(Begin(s, begin).state, es).signals)
    ensures |es| > 0 && InsideBounds(s.container, EventOffsetX(es[0])) ==>
              var b := EventOffsetX(begin).value;
              var x := EventOffsetX(es[0]).value;
              var sigs := RunMoves(Begin(s, begin).state, es).signals;
              && (x > b + Threshold ==> |sigs| > 0 && sigs[0] == Reacted(Right, es[0]))
              && (x < b - Threshold ==> |sigs| > 0 && sigs[0] == Reacted(Left, es[0]))
  {
    var s1 := Begin(s, begin).state;
    ReactionsAreSpaced(s1, es, EventOffsetX(begin).value);
    if |es| > 0 {
      var first := DetectMovement(s1, es[0]);
      assert RunMoves(s1, es).signals == SignalList(first.signal) + RunMoves(first.state, es[1..]).signals;
    }
  }

  /** A missing reference point is never absorbed and never compares, so it
      stays missing and nothing is reported until the next press. */
  lemma {:induction false} MissingReferenceSilencesMoves(s: DragState, es: seq<PointerEvent>)
    requires s.lastX == None
    ensures RunMoves(s, es).signals == [] && RunMoves(s, es).state.lastX == None
    decreases |es|
  {
    if |es| > 0 {
      MissingReferenceSilencesMoves(DetectMovement(s, es[0]).state, es[1..]);
    }
  }

  /** A press whose event carries no coordinate silences the whole gesture. */
  lemma PressWithoutCoordinateIsSilent(s: DragState, press: PointerEvent, es: seq<PointerEvent>)
    requires EventOffsetX(press) == None
    ensures RunMoves(Begin(s, press).state, es).signals == []
  {
    MissingReferenceSilencesMoves(Begin(s, press).state, es);
  }
}
