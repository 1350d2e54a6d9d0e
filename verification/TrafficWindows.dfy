/** Reading a window from a level is reading the samples that start in it. */
module TrafficWindows {
  import opened Basics
  import opened TrafficFrames
  import opened TrafficRollup

  function Within(samples: seq<Sample>, lo: int, hi: int): seq<Sample> {
    if |samples| == 0 then []
    else
      var rest := Within(samples[..|samples| - 1], lo, hi);
      var s := samples[|samples| - 1];
      if lo <= s.start < hi then rest + [s] else rest
  }

  /** The samples of the groups whose own start lies in the window. */
  function GroupsWithin(gs: seq<Group>, lo: int, hi: int): seq<Sample> {
    if |gs| == 0 then []
    else
      var rest := GroupsWithin(gs[..|gs| - 1], lo, hi);
      var g := gs[|gs| - 1];
      if lo <= g.start < hi then rest + g.parts else rest
  }

  function Last<T>(s: seq<T>, n: nat): seq<T> {
    if |s| <= n then s else s[|s| - n..]
  }

  function Times(k: int, step: Step): int {
    if step == 10 then k * 10 else if step == 300 then k * 300 else k * 3600
  }

  /** Everything ever pushed to a level. */
  function Pushed(e: Rollup, level: nat): seq<Group>
    requires level < LEVELS
  {
    if level == 0 then e.p0 else if level == 1 then e.p1 else e.p2
  }

  /** The pending frame of the level and the frames the finer levels hold back. */
  function Behind(e: Rollup, level: nat): seq<Group>
    requires level < LEVELS
  {
    if level == 0 then [] else if level == 1 then Held(e.open1) else Held(e.open2) + Held(e.open1)
  }

  /** What a report of a level reads. */
  function Shown(e: Rollup, level: nat): seq<Group>
    requires level < LEVELS
  {
    Last(Pushed(e, level), CapOf(level)) + Behind(e, level)
  }

  lemma {:induction false} WithinConcat(a: seq<Sample>, b: seq<Sample>, lo: int, hi: int)
    ensures Within(a + b, lo, hi) == Within(a, lo, hi) + Within(b, lo, hi)
  {
    if |b| == 0 {
      assert a + b == a;
    } else {
      assert (a + b)[..|a + b| - 1] == a + b[..|b| - 1];
      WithinConcat(a, b[..|b| - 1], lo, hi);
    }
  }

  lemma {:induction false} GroupsWithinConcat(a: seq<Group>, b: seq<Group>, lo: int, hi: int)
    ensures GroupsWithin(a + b, lo, hi) == GroupsWithin(a, lo, hi) + GroupsWithin(b, lo, hi)
  {
    if |b| == 0 {
      assert a + b == a;
    } else {
      assert (a + b)[..|a + b| - 1] == a + b[..|b| - 1];
      GroupsWithinConcat(a, b[..|b| - 1], lo, hi);
    }
  }

  lemma {:induction false} WithinAllOrNone(samples: seq<Sample>, lo: int, hi: int)
    ensures (forall s :: s in samples ==> lo <= s.start < hi) ==> Within(samples, lo, hi) == samples
    ensures (forall s :: s in samples ==> !(lo <= s.start < hi)) ==> Within(samples, lo, hi) == []
  {
    var n := |samples|;
    if n > 0 {
      assert samples == samples[..n - 1] + [samples[n - 1]];
      WithinAllOrNone(samples[..n - 1], lo, hi);
    }
  }

  /** The window holds a group's samples all or not at all, as it holds its start. */
  ghost predicate NotCut(g: Group, lo: int, hi: int) {
    forall s :: s in g.parts ==> (lo <= s.start < hi <==> lo <= g.start < hi)
  }

  lemma {:induction false} UncutGroups(gs: seq<Group>, lo: int, hi: int)
    requires forall i :: 0 <= i < |gs| ==> NotCut(gs[i], lo, hi)
    ensures GroupsWithin(gs, lo, hi) == Within(Parts(gs), lo, hi)
  {
    var n := |gs|;
    if n > 0 {
      UncutGroups(gs[..n - 1], lo, hi);
      assert NotCut(gs[n - 1], lo, hi);
      WithinConcat(Parts(gs[..n - 1]), gs[n - 1].parts, lo, hi);
      WithinAllOrNone(gs[n - 1].parts, lo, hi);
    }
  }

  /** A window on step boundaries does not cut a group of that step or a finer one. */
  lemma FitsIsNotCut(g: Group, fine: Step, step: Step, lo: int, hi: int)
    requires Fits(g, fine) && fine <= step
    requires Mod(lo, step) == 0 && Mod(hi, step) == 0
    ensures NotCut(g, lo, hi)
  {
    forall s | s in g.parts
      ensures lo <= s.start < hi <==> lo <= g.start < hi
    {
      NoBoundaryInside(g.start, s.start, fine, step, lo);
      NoBoundaryInside(g.start, s.start, fine, step, hi);
    }
  }

  lemma NoBoundaryInside(start: nat, t: nat, fine: Step, step: Step, edge: int)
    requires Mod(start, fine) == 0 && start <= t < start + fine && fine <= step && Mod(edge, step) == 0
    ensures edge <= start <==> edge <= t
  {
    assert Mod(edge, fine) == 0;
  }

  /** A window on step boundaries cuts no group of the level. */
  lemma WholeIsUncut(e: Rollup, level: nat, lo: int, hi: int)
    requires Sound(e) && level < LEVELS
    requires Mod(lo, StepOf(level)) == 0 && Mod(hi, StepOf(level)) == 0
    ensures var gs := Pushed(e, level) + Behind(e, level);
            GroupsWithin(gs, lo, hi) == Within(Parts(gs), lo, hi)
  {
    var gs := Pushed(e, level) + Behind(e, level);
    forall i | 0 <= i < |gs|
      ensures NotCut(gs[i], lo, hi)
    {
      WholeFits(e, level, i);
      FitsIsNotCut(gs[i], if Fits(gs[i], StepOf(level)) then StepOf(level) else StepOf(1), StepOf(level), lo, hi);
    }
    UncutGroups(gs, lo, hi);
  }

  lemma WholeParts(e: Rollup, samples: seq<Sample>, level: nat)
    requires Conserves(e, samples) && level < LEVELS
    ensures Parts(Pushed(e, level) + Behind(e, level)) == samples
  {
    hide Parts;
    var gs := Pushed(e, level) + Behind(e, level);
    if level == 0 {
      assert gs == e.p0;
    } else if level == 2 {
      assert gs == e.p2 + Held(e.open2) + Held(e.open1);
    }
  }

  lemma WholeFits(e: Rollup, level: nat, i: nat)
    requires Sound(e) && level < LEVELS && i < |Pushed(e, level) + Behind(e, level)|
    ensures var g := (Pushed(e, level) + Behind(e, level))[i];
            Fits(g, StepOf(level)) || (level == 2 && Fits(g, StepOf(1)))
  {
    var g := (Pushed(e, level) + Behind(e, level))[i];
    if level == 2 {
      var own := e.p2 + Held(e.open2);
      if i < |own| {
        assert g == own[i];
      } else {
        assert g == (e.p1 + Held(e.open1))[|e.p1|];
      }
    }
  }

  // ---- eviction ----

  /** Ordered frames are at least a step apart. */
  lemma {:induction false} Spaced(gs: seq<Group>, step: Step, k: nat)
    requires Ordered(gs, step) && k < |gs|
    ensures gs[|gs| - 1 - k].start + Times(k, step) <= gs[|gs| - 1].start
  {
    if k > 0 {
      Spaced(gs, step, k - 1);
      var i := |gs| - 1 - k;
      assert Fits(gs[i], step) && Fits(gs[i + 1], step);
      assert gs[i].start < gs[i + 1].start;
      OneStepApart(gs[i].start, gs[i + 1].start, step);
    }
  }

  lemma OneStepApart(a: int, b: int, step: Step)
    requires Mod(a, step) == 0 && Mod(b, step) == 0 && a < b
    ensures a + step <= b
  {
  }

  /** A ring of cap frames evicts nothing that a window of cap steps could show. */
  lemma EvictedAreOlder(gs: seq<Group>, step: Step, cap: nat, end: int, i: nat)
    requires Ordered(gs, step) && |gs| > cap && i < |gs| - cap
    requires Mod(end, step) == 0 && gs[|gs| - 1].start < end
    ensures gs[i].start < end - Times(cap, step)
  {
    Spaced(gs, step, cap);
    if i < |gs| - 1 - cap { assert gs[i].start < gs[|gs| - 1 - cap].start; }
    assert Fits(gs[|gs| - 1], step);
    OneStepApart(gs[|gs| - 1].start, end, step);
  }

  lemma {:induction false} NoneWithin(gs: seq<Group>, lo: int, hi: int)
    requires forall i :: 0 <= i < |gs| ==> gs[i].start < lo
    ensures GroupsWithin(gs, lo, hi) == []
  {
    if |gs| > 0 { NoneWithin(gs[..|gs| - 1], lo, hi); }
  }

  lemma RingShowsAll(gs: seq<Group>, step: Step, cap: nat, end: int, lo: int, hi: int)
    requires Ordered(gs, step)
    requires Mod(end, step) == 0 && (|gs| > 0 ==> gs[|gs| - 1].start < end)
    requires end - Times(cap, step) <= lo
    ensures GroupsWithin(Last(gs, cap), lo, hi) == GroupsWithin(gs, lo, hi)
  {
    if |gs| > cap {
      var k := |gs| - cap;
      assert gs == gs[..k] + gs[k..];
      forall i | 0 <= i < |gs[..k]|
        ensures gs[..k][i].start < lo
      {
        EvictedAreOlder(gs, step, cap, end, i);
      }
      NoneWithin(gs[..k], lo, hi);
      GroupsWithinConcat(gs[..k], gs[k..], lo, hi);
    }
  }

  // ---- the window of a report ----

  /** The end of the newest point: the newest sample boundary, rounded up to the step. */
  function WindowEnd(now: nat, step: Step): nat {
    var end := now - now % SAMPLE_STEP;
    var r := Mod(end, step);
    if r != 0 then end + (step - r) else end
  }

  lemma WindowEndFacts(now: nat, step: Step)
    ensures Mod(WindowEnd(now, step), step) == 0
    ensures now - now % SAMPLE_STEP <= WindowEnd(now, step) < now + step
  {
    var end := now - now % SAMPLE_STEP;
    RoundUp(end, step);
  }

  lemma RoundUp(end: nat, step: Step)
    ensures Mod(end, step) != 0 ==> Mod(end + (step - Mod(end, step)), step) == 0
    ensures Mod(end, step) < step
  {
  }

  /** The newest sample is over by now. */
  ghost predicate Before(samples: seq<Sample>, now: nat) {
    |samples| > 0 ==> samples[|samples| - 1].start + SAMPLE_STEP <= now
  }

  /** No sample is later than now; the newest may be the partial one of a shutdown,
      whose step is not over. */
  ghost predicate NotAhead(samples: seq<Sample>, now: nat) {
    |samples| > 0 ==> samples[|samples| - 1].start <= now
  }

  ghost predicate NewestBy(e: Rollup, level: nat, now: nat) {
    |e.p0| > 0 ==> e.p0[|e.p0| - 1].start + (if level == 0 then SAMPLE_STEP else 0) <= now
  }

  /** What level 1 completed is over before its open interval begins, which the newest
      sample is in. */
  lemma CompletedByOne(e: Rollup)
    requires Sound(e) && |e.p1| > 0
    ensures |e.p0| > 0 && e.p1[|e.p1| - 1].start + StepOf(1) <= e.p0[|e.p0| - 1].start
  {
    hide Floor, Mod, Risen;
    var l1 := e.p1 + Held(e.open1);
    var a, b := l1[|e.p1| - 1], l1[|e.p1|];
    assert Fits(a, StepOf(1)) && Fits(b, StepOf(1)) && a.start < b.start;
    OneStepApart(a.start, b.start, StepOf(1));
  }

  lemma CompletedByTwo(e: Rollup)
    requires Sound(e) && |e.p2| > 0
    ensures |e.p1| > 0 && e.p2[|e.p2| - 1].start < e.p1[|e.p1| - 1].start
  {
    hide Floor, Mod, Risen;
    var l2 := e.p2 + Held(e.open2);
    assert l2[|e.p2| - 1].start < l2[|e.p2|].start;
  }

  lemma NewestInWindow(e: Rollup, now: nat, level: nat)
    requires Sound(e) && level < LEVELS && NewestBy(e, level, now)
    ensures var ring := Pushed(e, level);
            |ring| > 0 ==> ring[|ring| - 1].start < WindowEnd(now, StepOf(level))
  {
    hide Sound, WindowEnd;
    WindowEndFacts(now, StepOf(level));
    if |Pushed(e, level)| == 0 {
    } else if level == 0 {
      NewestOnStep(e);
    } else if level == 1 {
      CompletedByOne(e);
    } else {
      CompletedByTwo(e);
      CompletedByOne(e);
    }
  }

  lemma NewestOnStep(e: Rollup)
    requires Sound(e) && |e.p0| > 0
    ensures e.p0[|e.p0| - 1].start % SAMPLE_STEP == 0
  {
    assert Fits(e.p0[|e.p0| - 1], StepOf(0));
  }

  /** No frame of the window was evicted from the ring. On the finest level that takes
      one frame a step; on the others it does not. */
  lemma NothingEvicted(e: Rollup, level: nat, now: nat, lo: int, hi: int)
    requires Sound(e) && level < LEVELS && NewestBy(e, level, now)
    requires level == 0 ==> Ordered(e.p0, StepOf(0))
    requires WindowEnd(now, StepOf(level)) - Times(CapOf(level), StepOf(level)) <= lo
    ensures GroupsWithin(Last(Pushed(e, level), CapOf(level)), lo, hi) == GroupsWithin(Pushed(e, level), lo, hi)
  {
    WindowEndFacts(now, StepOf(level));
    if level > 0 { RingOrdered(e, level); }
    NewestInWindow(e, now, level);
    RingShowsAll(Pushed(e, level), StepOf(level), CapOf(level), WindowEnd(now, StepOf(level)), lo, hi);
  }

  /** The window of a report, read from the ring, the pending frame and the frames
      held back below, is exactly the samples that start in it: none was evicted,
      none is counted twice. `lo` and `hi` are any step boundaries in the window,
      so this holds for the whole range and for each point of it. On the finest level
      it takes samples of which each has its own step. */
  lemma WindowIsExact(samples: seq<Sample>, level: nat, now: nat, points: nat, lo: int, hi: int)
    requires Rising(samples) && NotAhead(samples, now) && level < LEVELS
    requires level == 0 ==> Increasing(samples) && Before(samples, now)
    requires points <= CapOf(level)
    requires Mod(lo, StepOf(level)) == 0 && Mod(hi, StepOf(level)) == 0
    requires WindowEnd(now, StepOf(level)) - Times(points, StepOf(level)) <= lo
    ensures GroupsWithin(Shown(RollupOf(samples), level), lo, hi) == Within(samples, lo, hi)
  {
    hide Sound, Conserves, Shown, GroupsWithin, Within, Rising, Increasing, Ordered, RollupOf, WindowEnd, Mod;
    RollupConserves(samples);
    NewestSample(samples);
    if level == 0 { OneFrameAStep(samples); }
    WindowOfSound(RollupOf(samples), samples, level, now, lo, hi);
  }

  lemma NewestSample(samples: seq<Sample>)
    ensures var p0 := RollupOf(samples).p0;
            |p0| == |samples| && (|p0| > 0 ==> p0[|p0| - 1].start == samples[|samples| - 1].start)
  {
    LastStart(samples);
  }

  lemma OneFrameAStep(samples: seq<Sample>)
    requires Increasing(samples) && Sound(RollupOf(samples))
    ensures Ordered(RollupOf(samples).p0, StepOf(0))
  {
    LastStart(samples);
  }

  lemma WindowOfSound(e: Rollup, samples: seq<Sample>, level: nat, now: nat, lo: int, hi: int)
    requires Sound(e) && Conserves(e, samples) && level < LEVELS && NewestBy(e, level, now)
    requires level == 0 ==> Ordered(e.p0, StepOf(0))
    requires Mod(lo, StepOf(level)) == 0 && Mod(hi, StepOf(level)) == 0
    requires WindowEnd(now, StepOf(level)) - Times(CapOf(level), StepOf(level)) <= lo
    ensures GroupsWithin(Shown(e, level), lo, hi) == Within(samples, lo, hi)
  {
    NothingEvicted(e, level, now, lo, hi);
    WholeIsUncut(e, level, lo, hi);
    WholeParts(e, samples, level);
    GroupsWithinConcat(Pushed(e, level), Behind(e, level), lo, hi);
    GroupsWithinConcat(Last(Pushed(e, level), CapOf(level)), Behind(e, level), lo, hi);
  }

  // ---- the finest level, whatever its samples ----

  lemma {:induction false} SinglesWithin(gs: seq<Group>, samples: seq<Sample>, lo: int, hi: int)
    requires |gs| == |samples| && forall i :: 0 <= i < |gs| ==> gs[i] == Group(samples[i].start, [samples[i]])
    ensures GroupsWithin(gs, lo, hi) == Within(samples, lo, hi)
  {
    if |gs| > 0 { SinglesWithin(gs[..|gs| - 1], samples[..|gs| - 1], lo, hi); }
  }

  /** The samples a level still has frames of: the finest evicts by number. */
  function Seen(samples: seq<Sample>, level: nat): seq<Sample>
    requires level < LEVELS
  {
    if level == 0 then Last(samples, CapOf(0)) else samples
  }

  lemma FinestWindow(samples: seq<Sample>, lo: int, hi: int)
    ensures GroupsWithin(Shown(RollupOf(samples), 0), lo, hi) == Within(Seen(samples, 0), lo, hi)
  {
    LastStart(samples);
    var p0 := RollupOf(samples).p0;
    assert Shown(RollupOf(samples), 0) == Last(p0, CapOf(0));
    SinglesWithin(Last(p0, CapOf(0)), Last(samples, CapOf(0)), lo, hi);
  }

  /** A window of a report is the samples of its level that start in it. */
  lemma WindowIsSeen(samples: seq<Sample>, level: nat, now: nat, points: nat, lo: int, hi: int)
    requires Rising(samples) && NotAhead(samples, now) && level < LEVELS
    requires points <= CapOf(level)
    requires Mod(lo, StepOf(level)) == 0 && Mod(hi, StepOf(level)) == 0
    requires WindowEnd(now, StepOf(level)) - Times(points, StepOf(level)) <= lo
    ensures GroupsWithin(Shown(RollupOf(samples), level), lo, hi) == Within(Seen(samples, level), lo, hi)
  {
    if level == 0 {
      FinestWindow(samples, lo, hi);
    } else {
      WindowIsExact(samples, level, now, points, lo, hi);
    }
  }

  /** The window has no samples, or no more samples start since its beginning than the
      ring holds. */
  ghost predicate RoomFor(samples: seq<Sample>, cap: nat, lo: int, hi: int, now: nat) {
    Within(samples, lo, hi) == [] || |Within(samples, lo, now + 1)| <= cap
  }

  lemma {:induction false} WithinLength(samples: seq<Sample>, lo: int, hi: int)
    ensures |Within(samples, lo, hi)| <= |samples|
    ensures (exists s :: s in samples && lo <= s.start < hi) <==> Within(samples, lo, hi) != []
  {
    var n := |samples|;
    if n > 0 {
      assert samples == samples[..n - 1] + [samples[n - 1]];
      WithinLength(samples[..n - 1], lo, hi);
    }
  }

  lemma RisingParts(a: seq<Sample>, b: seq<Sample>, now: nat)
    requires Rising(a + b) && NotAhead(a + b, now)
    ensures forall x, y :: x in a && y in b ==> x.start <= y.start
    ensures forall y :: y in b ==> y.start <= now
  {
    var all := a + b;
    forall x, y | x in a && y in b
      ensures x.start <= y.start
    {
      var i :| 0 <= i < |a| && a[i] == x;
      var j :| 0 <= j < |b| && b[j] == y;
      assert all[i] == x && all[|a| + j] == y;
    }
    forall y | y in b
      ensures y.start <= now
    {
      var j :| 0 <= j < |b| && b[j] == y;
      assert all[|a| + j] == y;
    }
  }

  /** Of samples in order, the first of a have none in the window, or all that follow
      them start in it or after it. */
  lemma EarlierOnes(a: seq<Sample>, b: seq<Sample>, lo: int, hi: int, now: nat)
    requires Rising(a + b) && NotAhead(a + b, now) && hi <= now + 1
    ensures Within(a, lo, hi) != [] ==> Within(b, lo, now + 1) == b
    ensures Within(a, lo, hi) == [] && Within(b, lo, hi) != [] ==> Within(a, lo, now + 1) == []
  {
    hide Within, Rising;
    RisingParts(a, b, now);
    WithinLength(a, lo, hi);
    WithinLength(b, lo, hi);
    WithinAllOrNone(a, lo, now + 1);
    WithinAllOrNone(b, lo, now + 1);
    if Within(a, lo, hi) != [] {
      var x :| x in a && lo <= x.start < hi;
      assert forall y :: y in b ==> lo <= y.start < now + 1;
    } else if Within(b, lo, hi) != [] {
      var y :| y in b && lo <= y.start < hi;
      assert forall x :: x in a ==> x.start < lo;
    }
  }

  /** The newest samples are all of those in a window exactly where there is room. */
  lemma KeptExactly(samples: seq<Sample>, cap: nat, lo: int, hi: int, now: nat)
    requires Rising(samples) && NotAhead(samples, now) && hi <= now + 1
    ensures Within(Last(samples, cap), lo, hi) == Within(samples, lo, hi) <==> RoomFor(samples, cap, lo, hi, now)
  {
    hide Within, Rising, NotAhead;
    WithinLength(samples, lo, now + 1);
    if |samples| > cap {
      var a, b := samples[..|samples| - cap], samples[|samples| - cap..];
      assert samples == a + b && Last(samples, cap) == b;
      EarlierOnes(a, b, lo, hi, now);
      WithinConcat(a, b, lo, hi);
      WithinConcat(a, b, lo, now + 1);
      WithinWider(a, lo, hi, now + 1);
      WithinLength(b, lo, now + 1);
    }
  }

  lemma WithinWider(samples: seq<Sample>, lo: int, hi: int, wider: int)
    requires hi <= wider
    ensures Within(samples, lo, hi) != [] ==> Within(samples, lo, wider) != []
  {
    hide Within;
    WithinLength(samples, lo, hi);
    WithinLength(samples, lo, wider);
  }

  lemma RingOrdered(e: Rollup, level: nat)
    requires Sound(e) && 0 < level < LEVELS
    ensures Ordered(Pushed(e, level), StepOf(level))
  {
    if level == 1 {
      PrefixOrdered(e.p1, Held(e.open1), StepOf(1));
    } else {
      PrefixOrdered(e.p2, Held(e.open2), StepOf(2));
    }
  }

  lemma PrefixOrdered(a: seq<Group>, b: seq<Group>, step: Step)
    requires Ordered(a + b, step)
    ensures Ordered(a, step)
  {
    var all := a + b;
    forall i | 0 <= i < |a|
      ensures Fits(a[i], step)
    {
      assert a[i] == all[i];
    }
    forall i, j | 0 <= i < j < |a|
      ensures a[i].start < a[j].start
    {
      assert all[i].start < all[j].start;
    }
  }
}
