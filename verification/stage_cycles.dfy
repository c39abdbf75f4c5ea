/** Repeated stepping of the stage, as autoscroll or a run of gestures does it. */
module StageCycles {
  import opened Stage

  /** The stage after `k` forward steps. */
  function NextTimes(st: StageState, k: nat): StageState
    decreases k
  {
    if k == 0 then st else ShowNext(NextTimes(st, k - 1)).stage
  }

  /** The stage after `k` backward steps. */
  function PreviousTimes(st: StageState, k: nat): StageState
    decreases k
  {
    if k == 0 then st else ShowPrevious(PreviousTimes(st, k - 1)).stage
  }

  /** Euclidean division has a unique quotient and remainder. */
  lemma ModUnique(a: int, n: int, q: int, r: int)
    requires n >= 1 && 0 <= r < n && a == q * n + r
    ensures a % n == r
  {
    var q', r' := a / n, a % n;
    assert a == q' * n + r';
    assert (q - q') * n == r' - r;
    if q > q' {
      MulAtLeast(q - q', n);
    } else if q < q' {
      assert (q' - q) * n == r - r';
      MulAtLeast(q' - q, n);
    }
  }

  lemma {:induction false} MulAtLeast(d: int, n: int)
    requires d >= 1 && n >= 0
    ensures d * n >= n
    decreases d
  {
    if d > 1 {
      MulAtLeast(d - 1, n);
      assert d * n == (d - 1) * n + n;
    }
  }

  lemma ModSuccessor(a: int, n: int)
    requires n >= 1
    ensures (a % n + 1) % n == (a + 1) % n
  {
    var q, r := a / n, a % n;
    assert a == q * n + r;
    if r + 1 < n {
      ModUnique(r + 1, n, 0, r + 1);
      ModUnique(a + 1, n, q, r + 1);
    } else {
      ModUnique(r + 1, n, 1, 0);
      assert a + 1 == (q + 1) * n;
      ModUnique(a + 1, n, q + 1, 0);
    }
  }

  lemma ModPredecessor(a: int, n: int)
    requires n >= 1
    ensures (a % n - 1) % n == (a - 1) % n
  {
    var q, r := a / n, a % n;
    assert a == q * n + r;
    if r >= 1 {
      ModUnique(r - 1, n, 0, r - 1);
      ModUnique(a - 1, n, q, r - 1);
    } else {
      ModUnique(r - 1, n, -1, n - 1);
      assert a - 1 == (q - 1) * n + (n - 1);
      ModUnique(a - 1, n, q - 1, n - 1);
    }
  }

  /** Round-robin forward steps walk the slides cyclically: after `k` steps the
      offset is `offset + k` modulo the slide count, the slide count and mode
      never change, and exactly the current slide stays marked. */
  lemma {:induction false} RoundRobinForwardCycle(st: StageState, k: nat)
    requires IsRoundRobin(st) && InRange(st) && Synced(st)
    ensures var s := NextTimes(st, k);
            s.offset == (st.offset + k) % st.numSlides && s.numSlides == st.numSlides && s.config == st.config && Synced(s)
    decreases k
  {
    if k > 0 {
      RoundRobinForwardCycle(st, k - 1);
      var prev := NextTimes(st, k - 1);
      StepsKeepSynced(prev);
      ModSuccessor(st.offset + k - 1, st.numSlides);
    }
  }

  /** Round-robin backward steps walk the slides cyclically the other way. */
  lemma {:induction false} RoundRobinBackwardCycle(st: StageState, k: nat)
    requires IsRoundRobin(st) && InRange(st) && Synced(st)
    ensures var s := PreviousTimes(st, k);
            s.offset == (st.offset - k) % st.numSlides && s.numSlides == st.numSlides && s.config == st.config && Synced(s)
    decreases k
  {
    if k > 0 {
      RoundRobinBackwardCycle(st, k - 1);
      var prev := PreviousTimes(st, k - 1);
      StepsKeepSynced(prev);
      ModPredecessor(st.offset - (k - 1), st.numSlides);
    }
  }

  /** As many round-robin forward steps as there are slides bring the stage back to where it started. */
  lemma RoundRobinForwardTurn(st: StageState)
    requires IsRoundRobin(st) && InRange(st) && Synced(st)
    ensures NextTimes(st, st.numSlides) == st
  {
    var n := st.numSlides;
    var f := NextTimes(st, n);
    assert f.offset == st.offset && f.showing == st.showing && f.config == st.config && f.numSlides == st.numSlides by {
      RoundRobinForwardCycle(st, n);
      ModUnique(st.offset + n, n, 1, st.offset);
    }
  }

  /** As many round-robin backward steps as there are slides bring the stage back to where it started. */
  lemma RoundRobinBackwardTurn(st: StageState)
    requires IsRoundRobin(st) && InRange(st) && Synced(st)
    ensures PreviousTimes(st, st.numSlides) == st
  {
    var n := st.numSlides;
    var b := PreviousTimes(st, n);
    assert b.offset == st.offset && b.showing == st.showing && b.config == st.config && b.numSlides == st.numSlides by {
      RoundRobinBackwardCycle(st, n);
      ModUnique(st.offset - n, n, -1, st.offset);
    }
  }

  /** In any other mode forward steps climb to the last slide and stay there. */
  lemma {:induction false} ClampedForwardSaturates(st: StageState, k: nat)
    requires !IsRoundRobin(st) && InRange(st) && Synced(st)
    ensures var s := NextTimes(st, k);
            s.offset == Min(st.offset + k, st.numSlides - 1) && s.numSlides == st.numSlides && s.config == st.config && Synced(s)
    decreases k
  {
    if k > 0 {
      ClampedForwardSaturates(st, k - 1);
      StepsKeepSynced(NextTimes(st, k - 1));
    }
  }

  /** In any other mode backward steps descend to the first slide and stay there. */
  lemma {:induction false} ClampedBackwardSaturates(st: StageState, k: nat)
    requires !IsRoundRobin(st) && InRange(st) && Synced(st)
    ensures var s := PreviousTimes(st, k);
            s.offset == Max(st.offset - k, 0) && s.numSlides == st.numSlides && s.config == st.config && Synced(s)
    decreases k
  {
    if k > 0 {
      ClampedBackwardSaturates(st, k - 1);
      StepsKeepSynced(PreviousTimes(st, k - 1));
    }
  }
}
