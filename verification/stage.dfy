/** The stage: the index of the slide on show, the number of slides, and the
    configuration that decides what happens at either end. The slide and pager
    elements carrying the "showing" classes are represented by the set of
    their indices. */
module Stage {
  import opened Options

  /** The mode value under which stepping past an end wraps around; every other
      mode value holds the offset at the end. */
  const RoundRobin: string := "roundrobin"
  const DefaultMode: string := "default"

  datatype Config = Config(mode: string, autoscrollEnabled: bool, autostart: bool)

  /** `showing` holds the indices whose slide and pager are marked as showing. */
  datatype StageState = StageState(offset: int, numSlides: int, config: Config, showing: set<int>)

  /** The host element as far as the stage reads it: how many slide items it
      holds, and the value of its `data-stage-autoscroll` attribute if present. */
  datatype HostElement = HostElement(itemCount: nat, autoscrollAttribute: Option<string>)

  /** A request to move the showing marks from one index to another. */
  datatype Sync = Sync(from: int, to: int)

  /** The stage after a step, and the visual sync the step requested, if any. */
  datatype Shift = Shift(stage: StageState, sync: Option<Sync>)

  function Min(a: int, b: int): int { if a <= b then a else b }
  function Max(a: int, b: int): int { if a <= b then b else a }

  /** A freshly constructed stage: offset 0, no slides, round-robin, no
      autoscroll, autostart on, nothing marked. */
  function NewStage(): (r: StageState)
    ensures r.offset == 0 && r.numSlides == 0 && r.showing == {}
    ensures IsRoundRobin(r) && !r.config.autoscrollEnabled && r.config.autostart
  {
    StageState(0, 0, Config(RoundRobin, false, true), {})
  }

  predicate IsRoundRobin(st: StageState)
  {
    st.config.mode == RoundRobin
  }

  /** The offset is a valid slide index. */
  predicate InRange(st: StageState)
  {
    0 <= st.offset < st.numSlides
  }

  /** Index `i` names an element that exists: a lookup of slide or pager `i`
      finds something. */
  predicate Present(st: StageState, i: int)
  {
    0 <= i < st.numSlides
  }

  /** Reading the host element: the slide count, and autoscroll switched on
      exactly when the attribute reads "true" (off when it reads anything else,
      untouched when it is absent). */
  function SetElement(st: StageState, host: HostElement): (r: StageState)
    ensures r.numSlides == host.itemCount
    ensures host.autoscrollAttribute.Some? ==> (r.config.autoscrollEnabled <==> host.autoscrollAttribute.value == "true")
    ensures host.autoscrollAttribute.None? ==> r.config.autoscrollEnabled == st.config.autoscrollEnabled
    ensures r.offset == st.offset && r.showing == st.showing
    ensures r.config.mode == st.config.mode && r.config.autostart == st.config.autostart
  {
    var withCount := st.(numSlides := host.itemCount);
    match host.autoscrollAttribute
    case None => withCount
    case Some(v) => withCount.(config := withCount.config.(autoscrollEnabled := v == "true"))
  }

  /** `toggleSlidesVisibilityAndStyle`: moving the marks from `from` to `to`
      unmarks `from` and marks `to`, each only when it names an existing
      element. Equal indices change nothing. */
  function Toggle(st: StageState, from: int, to: int): (r: StageState)
    ensures r.offset == st.offset && r.numSlides == st.numSlides && r.config == st.config
    ensures from == to ==> r == st
    ensures from != to && Present(st, from) ==> from !in r.showing
    ensures from != to && Present(st, to) ==> to in r.showing
    ensures forall i :: (i != from || !Present(st, from)) && (i != to || !Present(st, to)) ==> (i in r.showing <==> i in st.showing)
  {
    if from == to then st
    else
      var unmarked := if Present(st, from) then st.showing - {from} else st.showing;
      st.(showing := if Present(st, to) then unmarked + {to} else unmarked)
  }

  /** Moves the offset to `next` and the marks with it, requesting a sync only
      when the offset actually changes. */
  function MoveTo(st: StageState, next: int): (r: Shift)
    ensures r.stage.offset == next
    ensures r.stage.numSlides == st.numSlides && r.stage.config == st.config
    ensures r.stage.showing == Toggle(st, st.offset, next).showing
    ensures r.sync.Some? <==> next != st.offset
    ensures r.sync.Some? ==> r.sync.value == Sync(st.offset, next)
  {
    if st.offset != next then Shift(Toggle(st, st.offset, next).(offset := next), Some(Sync(st.offset, next)))
    else Shift(st, None)
  }

  /** `showNext`: one slide forward; past the last slide, round-robin wraps to
      the first and every other mode stays on the last. */
  function ShowNext(st: StageState): (r: Shift)
    ensures r.stage.numSlides == st.numSlides && r.stage.config == st.config
    ensures r.sync.Some? <==> r.stage.offset != st.offset
    ensures r.sync.Some? ==> r.sync.value == Sync(st.offset, r.stage.offset)
    ensures r.stage.showing == Toggle(st, st.offset, r.stage.offset).showing
    ensures 1 <= st.numSlides && InRange(st) ==> InRange(r.stage)
    ensures IsRoundRobin(st) && InRange(st) ==> r.stage.offset == (st.offset + 1) % st.numSlides
    ensures !IsRoundRobin(st) && InRange(st) ==> r.stage.offset == Min(st.offset + 1, st.numSlides - 1)
  {
    var next :=
      if st.offset + 1 >= st.numSlides then (if IsRoundRobin(st) then 0 else st.numSlides - 1)
      else st.offset + 1;
    MoveTo(st, next)
  }

  /** `showPrevious`: one slide back; before the first slide, round-robin wraps
      to the last and every other mode stays on the first. */
  function ShowPrevious(st: StageState): (r: Shift)
    ensures r.stage.numSlides == st.numSlides && r.stage.config == st.config
    ensures r.sync.Some? <==> r.stage.offset != st.offset
    ensures r.sync.Some? ==> r.sync.value == Sync(st.offset, r.stage.offset)
    ensures r.stage.showing == Toggle(st, st.offset, r.stage.offset).showing
    ensures 1 <= st.numSlides && InRange(st) ==> InRange(r.stage)
    ensures IsRoundRobin(st) && InRange(st) ==> r.stage.offset == (st.offset - 1) % st.numSlides
    ensures !IsRoundRobin(st) && InRange(st) ==> r.stage.offset == Max(st.offset - 1, 0)
  {
    var next :=
      if st.offset - 1 < 0 then (if IsRoundRobin(st) then st.numSlides - 1 else 0)
      else st.offset - 1;
    MoveTo(st, next)
  }

  /** Exactly the current slide is marked. */
  predicate Synced(st: StageState)
  {
    st.showing == {st.offset}
  }

  /** Once exactly the current slide is marked, stepping keeps it so. */
  lemma StepsKeepSynced(st: StageState)
    requires InRange(st) && Synced(st)
    ensures Synced(ShowNext(st).stage) && Synced(ShowPrevious(st).stage)
  {
    var n := ShowNext(st).stage;
    var p := ShowPrevious(st).stage;
    assert n.showing == {n.offset};
    assert p.showing == {p.offset};
  }

  /** In round-robin mode, going forward and then back, or back and then
      forward, returns to the same stage. */
  lemma RoundRobinStepsInvert(st: StageState)
    requires IsRoundRobin(st) && InRange(st) && Synced(st)
    ensures ShowPrevious(ShowNext(st).stage).stage == st
    ensures ShowNext(ShowPrevious(st).stage).stage == st
  {
    StepsKeepSynced(st);
  }

  /** In any other mode the same holds away from the far end in the direction of travel. */
  lemma ClampedStepsInvert(st: StageState)
    requires !IsRoundRobin(st) && InRange(st) && Synced(st)
    ensures st.offset < st.numSlides - 1 ==> ShowPrevious(ShowNext(st).stage).stage == st
    ensures st.offset > 0 ==> ShowNext(ShowPrevious(st).stage).stage == st
  {
    StepsKeepSynced(st);
  }

  /** At the ends, round-robin wraps and every other mode requests no sync. */
  lemma EndsBehaviour(st: StageState)
    requires 1 <= st.numSlides
    ensures st.offset == st.numSlides - 1 ==>
              ShowNext(st).stage.offset == (if IsRoundRobin(st) then 0 else st.offset)
    ensures st.offset == 0 ==>
              ShowPrevious(st).stage.offset == (if IsRoundRobin(st) then st.numSlides - 1 else 0)
    ensures st.offset == st.numSlides - 1 && !IsRoundRobin(st) ==> ShowNext(st) == Shift(st, None)
    ensures st.offset == 0 && !IsRoundRobin(st) ==> ShowPrevious(st) == Shift(st, None)
    ensures st.numSlides == 1 && st.offset == 0 ==> ShowNext(st) == Shift(st, None) && ShowPrevious(st) == Shift(st, None)
  {
  }

  /** Without slides the range cannot hold: round-robin going back from 0
      lands on -1 and requests a sync from 0 to -1, although no element is
      marked or unmarked; any other mode going forward from 0 lands on -1 too. */
  lemma NoSlidesLeavesRange(st: StageState)
    requires st.numSlides == 0 && st.offset == 0
    ensures IsRoundRobin(st) ==> ShowPrevious(st).stage.offset == -1 && ShowPrevious(st).sync == Some(Sync(0, -1))
    ensures ShowPrevious(st).stage.showing == st.showing && ShowNext(st).stage.showing == st.showing
    ensures IsRoundRobin(st) ==> ShowNext(st) == Shift(st, None)
    ensures !IsRoundRobin(st) ==> ShowNext(st).stage.offset == -1 && ShowPrevious(st) == Shift(st, None)
  {
  }

  /** The declared alternative mode `'default'` is not round-robin, so it
      holds the offset at both ends. */
  lemma DefaultModeClamps(st: StageState)
    requires st.config.mode == DefaultMode && 1 <= st.numSlides
    ensures !IsRoundRobin(st)
    ensures st.offset == st.numSlides - 1 ==> ShowNext(st) == Shift(st, None)
    ensures st.offset == 0 ==> ShowPrevious(st) == Shift(st, None)
  {
  }
}
