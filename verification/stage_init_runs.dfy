/** Properties of the wired-up carousel over whole input sequences. */
module StageInitRuns {
  import opened Options
  import opened DragHandler
  import opened DragRuns
  import opened Stage
  import opened StageInit

  /** The shared variables agree with the drag handler: a gesture is in
      progress exactly while the button is held, and no direction survives
      outside a gesture. */
  predicate GlueConsistent(c: Carousel)
  {
    && c.glue.userInteracted == c.drag.isMouseDown
    && (!c.glue.userInteracted ==> c.glue.lastReaction == None)
  }

  /** The first reveal has run, the offset is a slide index, and exactly that
      slide and its pager are marked. */
  predicate Settled(c: Carousel)
  {
    !c.revealPending && InRange(c.stage) && Synced(c.stage)
  }

  lemma FeedKeepsGlueConsistent(c: Carousel, i: Input)
    requires GlueConsistent(c)
    ensures GlueConsistent(Feed(c, i))
  {
  }

  /** A freshly set-up carousel is consistent, and every input sequence keeps
      it so: a direction recorded in one gesture is never used by the next. */
  lemma {:induction false} FeedAllKeepsGlueConsistent(c: Carousel, inputs: seq<Input>)
    requires GlueConsistent(c)
    ensures GlueConsistent(FeedAll(c, inputs))
    decreases |inputs|
  {
    if |inputs| > 0 {
      FeedKeepsGlueConsistent(c, inputs[0]);
      FeedAllKeepsGlueConsistent(Feed(c, inputs[0]), inputs[1..]);
    }
  }

  lemma InitOnIsGlueConsistent(host: HostElement, handler: Bounds)
    ensures GlueConsistent(InitOn(host, handler))
  {
  }

  lemma FeedKeepsSettled(c: Carousel, i: Input)
    requires Settled(c)
    ensures Settled(Feed(c, i))
  {
    StepsKeepSynced(c.stage);
  }

  /** Once settled, the carousel stays settled whatever the user and the
      pagers do: the offset stays a slide index and exactly one slide shows. */
  lemma {:induction false} FeedAllKeepsSettled(c: Carousel, inputs: seq<Input>)
    requires Settled(c)
    ensures Settled(FeedAll(c, inputs))
    ensures FeedAll(c, inputs).stage.numSlides == c.stage.numSlides
    decreases |inputs|
  {
    if |inputs| > 0 {
      FeedKeepsSettled(c, inputs[0]);
      FeedAllKeepsSettled(Feed(c, inputs[0]), inputs[1..]);
    }
  }

  lemma FeedKeepsInRange(c: Carousel, i: Input)
    requires InRange(c.stage)
    ensures InRange(Feed(c, i).stage) && Feed(c, i).stage.numSlides == c.stage.numSlides
  {
  }

  /** The offset stays a slide index under every input sequence, in whatever
      order the reveal timer fires, or if it never fires. */
  lemma {:induction false} FeedAllKeepsInRange(c: Carousel, inputs: seq<Input>)
    requires InRange(c.stage)
    ensures InRange(FeedAll(c, inputs).stage)
    decreases |inputs|
  {
    if |inputs| > 0 {
      FeedKeepsInRange(c, inputs[0]);
      FeedAllKeepsInRange(Feed(c, inputs[0]), inputs[1..]);
    }
  }

  /** From set-up on a host with at least one slide, every input sequence
      keeps the offset a slide index. */
  lemma SetUpStaysInRange(host: HostElement, handler: Bounds, inputs: seq<Input>)
    requires host.itemCount >= 1
    ensures InRange(FeedAll(InitOn(host, handler), inputs).stage)
  {
    FeedAllKeepsInRange(InitOn(host, handler), inputs);
  }

  /** With at least one slide, the first reveal settles a fresh carousel. */
  lemma RevealSettles(host: HostElement, handler: Bounds)
    requires host.itemCount >= 1
    ensures Settled(Feed(InitOn(host, handler), RevealTimer))
  {
  }

  /** Movement events as inputs. */
  function Moves(es: seq<PointerEvent>): (r: seq<Input>)
    ensures |r| == |es|
    ensures forall k :: 0 <= k < |es| ==> r[k] == PointerMove(es[k])
    decreases |es|
  {
    if |es| == 0 then [] else [PointerMove(es[0])] + Moves(es[1..])
  }

  lemma {:induction false} LastDirectionAppend(a: seq<Signal>, b: seq<Signal>, prior: Option<Direction>)
    ensures LastDirection(a + b, prior) == LastDirection(b, LastDirection(a, prior))
    decreases |b|
  {
    if |b| == 0 {
      assert a + b == a;
    } else if !b[|b| - 1].Reacted? {
      assert (a + b)[..|a + b| - 1] == a + b[..|b| - 1];
      LastDirectionAppend(a, b[..|b| - 1], prior);
    }
  }

  /** Movements touch nothing but the drag handler and the last direction,
      which ends up as the direction of the last reaction reported. */
  lemma {:induction false} MovesRecordLastDirection(c: Carousel, es: seq<PointerEvent>)
    ensures var run := RunMoves(c.drag, es);
            FeedAll(c, Moves(es)) ==
              c.(drag := run.state, glue := c.glue.(lastReaction := LastDirection(run.signals, c.glue.lastReaction)))
    decreases |es|
  {
    if |es| > 0 {
      var first := DetectMovement(c.drag, es[0]);
      var c1 := Feed(c, PointerMove(es[0]));
      assert Moves(es)[1..] == Moves(es[1..]);
      MovesRecordLastDirection(c1, es[1..]);
      var rest := RunMoves(first.state, es[1..]);
      LastDirectionAppend(SignalList(first.signal), rest.signals, c.glue.lastReaction);
      if first.signal.Some? {
        assert LastDirection([first.signal.value], c.glue.lastReaction) == Some(first.signal.value.direction);
      }
    }
  }

  /** A whole gesture, begun with no gesture in progress, moves the stage by
      exactly one step: forward when the last reported direction was left,
      backward otherwise, including a click with no reported direction at
      all. Afterwards no gesture is in progress and no direction is kept. */
  lemma GestureShiftsOnce(c: Carousel, down: PointerEvent, es: seq<PointerEvent>, up: PointerEvent)
    requires GlueConsistent(c) && !c.drag.isMouseDown
    ensures var run := RunMoves(Begin(c.drag, down).state, es);
            var r := FeedAll(c, [PointerDown(down)] + Moves(es) + [PointerUp(up)]);
            && r.stage == (if LastDirection(run.signals, None) == Some(Left) then ShowNext(c.stage).stage
                           else ShowPrevious(c.stage).stage)
            && r.glue == Glue(None, false)
            && !r.drag.isMouseDown
            && r.revealPending == c.revealPending
  {
    var c1 := Feed(c, PointerDown(down));
    assert c1.glue == Glue(None, true);
    MovesRecordLastDirection(c1, es);
    var c2 := FeedAll(c1, Moves(es));
    FeedAllSplit(c, [PointerDown(down)], Moves(es) + [PointerUp(up)]);
    FeedAllSplit(c1, Moves(es), [PointerUp(up)]);
    assert [PointerDown(down)] + Moves(es) + [PointerUp(up)] == [PointerDown(down)] + (Moves(es) + [PointerUp(up)]);
  }

  lemma {:induction false} FeedAllSplit(c: Carousel, a: seq<Input>, b: seq<Input>)
    ensures FeedAll(c, a + b) == FeedAll(FeedAll(c, a), b)
    decreases |a|
  {
    if |a| > 0 {
      assert (a + b)[1..] == a[1..] + b;
      FeedAllSplit(Feed(c, a[0]), a[1..], b);
    } else {
      assert a + b == b;
    }
  }

  /** A settled carousel reacts to a pager's transition end only when it comes
      from the pager of the slide on show and autoscroll is on, and then by
      exactly one forward step. */
  lemma AutoscrollFromCurrentPagerOnly(c: Carousel, pager: int)
    requires Settled(c)
    ensures var r := Feed(c, PagerTransitionEnd(pager));
            && (pager == c.stage.offset && c.stage.config.autoscrollEnabled ==> r.stage == ShowNext(c.stage).stage)
            && (pager != c.stage.offset || !c.stage.config.autoscrollEnabled ==> r == c)
  {
  }

  /** Three slides, round-robin: after the first reveal, pressing at 100,
      moving to 130 and releasing reports right and so wraps back to slide 2. */
  lemma ThreeSlidesDragRightWrapsToLast()
    ensures var c0 := InitOn(HostElement(3, None), Bounds(0, 300));
            var r := FeedAll(c0, [RevealTimer,
                                  PointerDown(PointerEvent("mousedown", Some(100), None)),
                                  PointerMove(PointerEvent("mousemove", Some(130), None)),
                                  PointerUp(PointerEvent("mouseup", Some(130), None))]);
            r.stage.offset == 2 && r.stage.showing == {2}
  {
    var c0 := InitOn(HostElement(3, None), Bounds(0, 300));
    var down := PointerEvent("mousedown", Some(100), None);
    var move := PointerEvent("mousemove", Some(130), None);
    var up := PointerEvent("mouseup", Some(130), None);
    var c1 := Feed(c0, RevealTimer);
    assert c1.stage.showing == {0};
    var c2 := Feed(c1, PointerDown(down));
    assert c2.drag.lastX == Some(100);
    var c3 := Feed(c2, PointerMove(move));
    assert DetectMovement(c2.drag, move).signal == Some(Reacted(Right, move));
    assert c3.glue == Glue(Some(Right), true);
    var c4 := Feed(c3, PointerUp(up));
    assert c4.stage.offset == 2;
    var inputs := [RevealTimer, PointerDown(down), PointerMove(move), PointerUp(up)];
    assert FeedAll(c0, inputs) == FeedAll(c1, inputs[1..]);
    assert FeedAll(c1, inputs[1..]) == FeedAll(c2, inputs[2..]);
    assert FeedAll(c2, inputs[2..]) == FeedAll(c3, inputs[3..]);
    assert FeedAll(c3, inputs[3..]) == FeedAll(c4, []);
  }

  /** When a gesture completes before the reveal timer fires, the reveal
      marks slide 0 next to the slide the gesture moved to: three slides,
      press at 100, move to 70 (reported left, so next), release, then the
      timer leaves slides 1 and 0 both marked. */
  lemma GestureBeforeRevealMarksTwoSlides()
    ensures var c0 := InitOn(HostElement(3, None), Bounds(0, 300));
            var r := FeedAll(c0, [PointerDown(PointerEvent("mousedown", Some(100), None)),
                                  PointerMove(PointerEvent("mousemove", Some(70), None)),
                                  PointerUp(PointerEvent("mouseup", Some(70), None)),
                                  RevealTimer]);
            r.stage.offset == 1 && r.stage.showing == {0, 1} && !Settled(r)
  {
    var c0 := InitOn(HostElement(3, None), Bounds(0, 300));
    var down := PointerEvent("mousedown", Some(100), None);
    var move := PointerEvent("mousemove", Some(70), None);
    var up := PointerEvent("mouseup", Some(70), None);
    var c1 := Feed(c0, PointerDown(down));
    assert c1.drag.lastX == Some(100);
    var c2 := Feed(c1, PointerMove(move));
    assert DetectMovement(c1.drag, move).signal == Some(Reacted(Left, move));
    assert c2.glue == Glue(Some(Left), true);
    var c3 := Feed(c2, PointerUp(up));
    assert c3.stage.offset == 1 && c3.stage.showing == {1};
    var c4 := Feed(c3, RevealTimer);
    assert c4.stage.showing == {0, 1};
    var inputs := [PointerDown(down), PointerMove(move), PointerUp(up), RevealTimer];
    assert FeedAll(c0, inputs) == FeedAll(c1, inputs[1..]);
    assert FeedAll(c1, inputs[1..]) == FeedAll(c2, inputs[2..]);
    assert FeedAll(c2, inputs[2..]) == FeedAll(c3, inputs[3..]);
    assert FeedAll(c3, inputs[3..]) == FeedAll(c4, []);
  }
}
