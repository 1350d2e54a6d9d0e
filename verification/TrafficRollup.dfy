/** Which samples a frame of the traffic history stands for.

    Every frame of every level is a group of consecutive samples. This module
    follows the groups alone, with everything ever pushed to a level kept, and
    shows that the rings and the frames held back lose and repeat nothing:
    a window read from a ring is the list of samples that start in it. */
module TrafficRollup {
  import opened Basics
  import opened TrafficFrames

  // The three resolutions: seconds per frame and frames kept.
  const SAMPLE_STEP: Step := 10
  const LEVELS := 3

  function StepOf(level: nat): Step
    requires level < LEVELS
  {
    if level == 0 then SAMPLE_STEP else if level == 1 then 300 else 3600
  }

  function CapOf(level: nat): nat
    requires level < LEVELS
  {
    if level == 0 then 360 else if level == 1 then 288 else 168
  }

  /** What one sampling added, resolved to dimension keys. */
  datatype Sample = Sample(start: nat, load: Load)

  /** A frame as the samples it was merged from, oldest first. */
  datatype Group = Group(start: nat, parts: seq<Sample>)

  /** Everything ever pushed to each level, and the two groups held back. */
  datatype Rollup = Rollup(p0: seq<Group>, p1: seq<Group>, open1: Option<Group>, p2: seq<Group>, open2: Option<Group>)

  const EMPTY := Rollup([], [], None, [], None)

  /** Steps are the three constants above, so remainders stay linear. */
  type Step = s: nat | s == 10 || s == 300 || s == 3600 witness 10

  function Mod(t: int, step: Step): nat {
    if step == 10 then t % 10 else if step == 300 then t % 300 else t % 3600
  }

  lemma FloorOf10(t: nat)
    ensures (t - t % 10) % 10 == 0 && t % 10 <= t
  {
  }

  lemma FloorOf300(t: nat)
    ensures (t - t % 300) % 300 == 0 && t % 300 <= t
  {
  }

  lemma FloorOf3600(t: nat)
    ensures (t - t % 3600) % 3600 == 0 && t % 3600 <= t
  {
  }

  lemma FloorOnStep(t: nat, step: Step)
    ensures Mod(t - Mod(t, step), step) == 0 && 0 <= Mod(t, step) < step && Mod(t, step) <= t
  {
    FloorOf10(t);
    FloorOf300(t);
    FloorOf3600(t);
  }

  function Floor(t: nat, step: Step): (r: nat)
    ensures r <= t < r + step
    ensures Mod(r, step) == 0
  {
    hide Mod;
    FloorOnStep(t, step);
    t - Mod(t, step)
  }

  /** historyLevel.add on groups: the result is what was completed, if anything,
      and the group now held back. */
  function Hold(open: Option<Group>, step: Step, g: Group): (r: (Option<Group>, Group))
  {
    var start := Floor(g.start, step);
    if open.Some? && open.value.start != start then (open, Group(start, g.parts))
    else if open.Some? then (None, Group(start, open.value.parts + g.parts))
    else (None, Group(start, g.parts))
  }

  /** One sampling on groups: level 0 takes the sample, level 1 holds it, and a
      group level 1 completes goes on to level 2. */
  function Take(e: Rollup, s: Sample): Rollup {
    var g := Group(s.start, [s]);
    var (done1, held1) := Hold(e.open1, StepOf(1), g);
    if done1.Some? then
      var (done2, held2) := Hold(e.open2, StepOf(2), done1.value);
      Rollup(e.p0 + [g], e.p1 + [done1.value], Some(held1),
             if done2.Some? then e.p2 + [done2.value] else e.p2, Some(held2))
    else
      e.(p0 := e.p0 + [g], open1 := Some(held1))
  }

  function RollupOf(samples: seq<Sample>): Rollup {
    if |samples| == 0 then EMPTY
    else Take(RollupOf(samples[..|samples| - 1]), samples[|samples| - 1])
  }

  function Parts(gs: seq<Group>): seq<Sample> {
    if |gs| == 0 then [] else Parts(gs[..|gs| - 1]) + gs[|gs| - 1].parts
  }

  function Held(open: Option<Group>): seq<Group> {
    if open.Some? then [open.value] else []
  }

  lemma PartsMore(gs: seq<Group>, g: Group)
    ensures Parts(gs + [g]) == Parts(gs) + g.parts
  {
    assert (gs + [g])[..|gs|] == gs;
  }

  lemma PartsNone(gs: seq<Group>)
    requires gs == []
    ensures Parts(gs) == []
  {
  }

  lemma {:induction false} PartsConcat(a: seq<Group>, b: seq<Group>)
    ensures Parts(a + b) == Parts(a) + Parts(b)
  {
    hide Parts;
    if |b| == 0 {
      PartsNone(b);
      assert a + b == a;
    } else {
      var front, last := b[..|b| - 1], b[|b| - 1];
      assert a + b == (a + front) + [last] && b == front + [last];
      PartsConcat(a, front);
      PartsMore(a + front, last);
      PartsMore(front, last);
    }
  }

  lemma PartsOne(g: Group)
    ensures Parts([g]) == g.parts
  {
    assert [g][..0] == [];
    assert Parts([g]) == Parts([]) + g.parts;
  }

  // ---- order ----

  /** Samples on the boundaries of the sample step, in order. Two of one start come
      from a restart within a sample step: the frame taken at shutdown and the next. */
  ghost predicate Rising(samples: seq<Sample>) {
    && (forall i :: 0 <= i < |samples| ==> Mod(samples[i].start, SAMPLE_STEP) == 0)
    && (forall i, j :: 0 <= i < j < |samples| ==> samples[i].start <= samples[j].start)
  }

  /** One sample a step at most. */
  ghost predicate Increasing(samples: seq<Sample>) {
    && (forall i :: 0 <= i < |samples| ==> Mod(samples[i].start, SAMPLE_STEP) == 0)
    && (forall i, j :: 0 <= i < j < |samples| ==> samples[i].start < samples[j].start)
  }

  /** Every sample of the group lies in the group's interval. */
  ghost predicate Fits(g: Group, step: Step)
  {
    && Mod(g.start, step) == 0
    && forall s :: s in g.parts ==> g.start <= s.start < g.start + step
  }

  ghost predicate Risen(gs: seq<Group>, step: Step)
  {
    && (forall i :: 0 <= i < |gs| ==> Fits(gs[i], step))
    && (forall i, j :: 0 <= i < j < |gs| ==> gs[i].start <= gs[j].start)
  }

  ghost predicate Ordered(gs: seq<Group>, step: Step)
  {
    && (forall i :: 0 <= i < |gs| ==> Fits(gs[i], step))
    && (forall i, j :: 0 <= i < j < |gs| ==> gs[i].start < gs[j].start)
  }

  ghost predicate Sound(e: Rollup) {
    && Risen(e.p0, StepOf(0))
    && Ordered(e.p1 + Held(e.open1), StepOf(1))
    && Ordered(e.p2 + Held(e.open2), StepOf(2))
    && (e.open1.Some? <==> |e.p0| > 0)
    && (e.open2.Some? <==> |e.p1| > 0)
    && (e.open1.None? ==> e.p1 == [])
    && (e.open2.None? ==> e.p2 == [])
    && (e.open1.Some? ==> e.open1.value.start == Floor(e.p0[|e.p0| - 1].start, StepOf(1)))
    && (e.open2.Some? ==> e.open2.value.start == Floor(e.p1[|e.p1| - 1].start, StepOf(2)))
  }

  lemma FloorMonotone(a: nat, b: nat, step: Step)
    requires a <= b
    ensures Floor(a, step) <= Floor(b, step)
  {
  }

  /** An hour holds a 5-minute interval whole. */
  lemma FloorContains(start: nat)
    requires Mod(start, StepOf(1)) == 0
    ensures Floor(start, StepOf(2)) + StepOf(2) >= start + StepOf(1)
  {
  }

  /** Holding a later group keeps a level ordered, and moves its parts along. */
  lemma HoldKeeps(p: seq<Group>, open: Option<Group>, step: Step, g: Group)
    requires Ordered(p + Held(open), step)
    requires open.Some? ==> open.value.start <= Floor(g.start, step)
    requires open.None? ==> p == []
    requires forall s :: s in g.parts ==> Floor(g.start, step) <= s.start < Floor(g.start, step) + step
    ensures var (done, held) := Hold(open, step, g);
            && Ordered(p + Held(done) + [held], step)
            && held.start == Floor(g.start, step)
            && Parts(p + Held(done) + [held]) == Parts(p + Held(open)) + g.parts
  {
    hide Parts, Ordered;
    var start := Floor(g.start, step);
    var (done, held) := Hold(open, step, g);
    PartsConcat(p + Held(done), [held]);
    PartsOne(held);
    if open.None? {
      assert p + Held(open) == p == p + Held(None);
      Extend(p, step, Group(start, g.parts));
    } else if open.value.start != start {
      Extend(p + Held(open), step, Group(start, g.parts));
    } else {
      FitsLast(p, open.value, step);
      assert p + Held(open) == p + [open.value];
      Refill(p, step, open.value, Group(start, open.value.parts + g.parts));
      PartsConcat(p, [open.value]);
      PartsOne(open.value);
      assert p + Held(None) == p;
    }
  }

  lemma FitsLast(p: seq<Group>, g: Group, step: Step)
    requires Ordered(p + [g], step)
    ensures Fits(g, step)
  {
    assert (p + [g])[|p|] == g;
  }

  lemma Extend(p: seq<Group>, step: Step, g: Group)
    requires Ordered(p, step) && Fits(g, step)
    requires |p| > 0 ==> p[|p| - 1].start < g.start
    ensures Ordered(p + [g], step)
  {
    var all := p + [g];
    forall i, j | 0 <= i < j < |all|
      ensures all[i].start < all[j].start
    {
      if j < |p| { assert p[i].start < p[j].start; }
      else if i < |p| - 1 { assert p[i].start < p[|p| - 1].start; }
    }
    forall i | 0 <= i < |all|
      ensures Fits(all[i], step)
    {
      if i < |p| { assert all[i] == p[i]; }
    }
  }

  lemma Refill(p: seq<Group>, step: Step, g: Group, fuller: Group)
    requires Ordered(p + [g], step) && Fits(fuller, step) && fuller.start == g.start
    ensures Ordered(p + [fuller], step)
  {
    var all, all' := p + [g], p + [fuller];
    forall i, j | 0 <= i < j < |all'|
      ensures all'[i].start < all'[j].start
    {
      assert all[i].start < all[j].start;
    }
    forall i | 0 <= i < |all'|
      ensures Fits(all'[i], step)
    {
      if i < |p| { assert all'[i] == all[i]; }
    }
  }

  /** Every level, with the groups held back below and at it, is the whole list
      of samples: nothing is lost and nothing is repeated. */
  ghost predicate Conserves(e: Rollup, samples: seq<Sample>) {
    && Parts(e.p0) == samples
    && Parts(e.p1 + Held(e.open1)) == samples
    && Parts(e.p2 + Held(e.open2) + Held(e.open1)) == samples
  }

  lemma {:induction false} RollupConserves(samples: seq<Sample>)
    requires Rising(samples)
    ensures Sound(RollupOf(samples)) && Conserves(RollupOf(samples), samples)
  {
    var n := |samples|;
    if n == 0 {
      assert Parts([]) == [];
    } else {
      var before, s := samples[..n - 1], samples[n - 1];
      assert samples == before + [s];
      RollupConserves(before);
      NextSample(before, s);
      TakeSound(RollupOf(before), s);
      TakeConserves(RollupOf(before), s, before);
    }
  }

  lemma NextSample(before: seq<Sample>, s: Sample)
    requires Rising(before + [s])
    ensures Next(RollupOf(before), s)
  {
    LastStart(before);
    var all := before + [s];
    assert all[|before|] == s;
    if |before| > 0 { assert all[|before| - 1] == before[|before| - 1]; }
  }

  /** The newest group of level 0 is the newest sample. */
  lemma LastStart(samples: seq<Sample>)
    ensures var e := RollupOf(samples); |e.p0| == |samples|
    ensures var e := RollupOf(samples); forall i :: 0 <= i < |samples| ==> e.p0[i] == Group(samples[i].start, [samples[i]])
  {
    if |samples| > 0 {
      LastStart(samples[..|samples| - 1]);
    }
  }

  /** A sample earlier than the newest one cannot come next. */
  ghost predicate Next(e: Rollup, s: Sample) {
    && Mod(s.start, SAMPLE_STEP) == 0
    && (|e.p0| > 0 ==> e.p0[|e.p0| - 1].start <= s.start)
  }

  lemma TakeSound(e: Rollup, s: Sample)
    requires Sound(e) && Next(e, s)
    ensures Sound(Take(e, s))
  {
    hide Parts, Ordered, Risen, Fits;
    TakeLevel0(e, s);
    TakeLevel1(e, s);
    if Hold(e.open1, StepOf(1), Group(s.start, [s])).0.Some? {
      TakeDone(e, s);
    }
  }

  lemma TakeConserves(e: Rollup, s: Sample, before: seq<Sample>)
    requires Sound(e) && Next(e, s) && Conserves(e, before)
    ensures Conserves(Take(e, s), before + [s])
  {
    TakeLevel0(e, s);
    TakeLevel1(e, s);
    CoarsestConserves(e, s);
  }

  lemma CoarsestConserves(e: Rollup, s: Sample)
    requires Sound(e) && Next(e, s)
    ensures var e' := Take(e, s);
            Parts(e'.p2 + Held(e'.open2) + Held(e'.open1)) == Parts(e.p2 + Held(e.open2) + Held(e.open1)) + [s]
  {
    hide Parts, Ordered, Risen, Fits;
    var e' := Take(e, s);
    var (done1, held1) := Hold(e.open1, StepOf(1), Group(s.start, [s]));
    PartsConcat(e.p2 + Held(e.open2), Held(e.open1));
    PartsConcat(e'.p2 + Held(e'.open2), [held1]);
    PartsOne(held1);
    if e.open1.Some? { PartsOne(e.open1.value); } else { PartsNone([]); }
    if done1.Some? { TakeDone(e, s); }
  }

  lemma TakeLevel0(e: Rollup, s: Sample)
    requires Sound(e) && Next(e, s)
    ensures Risen(Take(e, s).p0, StepOf(0)) && Parts(Take(e, s).p0) == Parts(e.p0) + [s]
  {
    hide Parts;
    var g := Group(s.start, [s]);
    PartsConcat(e.p0, [g]);
    PartsOne(g);
    assert Fits(g, StepOf(0));
    RisenMore(e.p0, StepOf(0), g);
    assert Take(e, s).p0 == e.p0 + [g];
  }

  lemma RisenMore(p: seq<Group>, step: Step, g: Group)
    requires Risen(p, step) && Fits(g, step)
    requires |p| > 0 ==> p[|p| - 1].start <= g.start
    ensures Risen(p + [g], step)
  {
    var all := p + [g];
    forall i, j | 0 <= i < j < |all|
      ensures all[i].start <= all[j].start
    {
      if j < |p| { assert p[i].start <= p[j].start; }
      else if i < |p| - 1 { assert p[i].start <= p[|p| - 1].start; }
    }
    forall i | 0 <= i < |all|
      ensures Fits(all[i], step)
    {
      if i < |p| { assert all[i] == p[i]; }
    }
  }

  lemma TakeLevel1(e: Rollup, s: Sample)
    requires Sound(e) && Next(e, s)
    ensures var e' := Take(e, s);
            && e'.open1 == Some(Hold(e.open1, StepOf(1), Group(s.start, [s])).1)
            && e'.p1 == e.p1 + Held(Hold(e.open1, StepOf(1), Group(s.start, [s])).0)
            && e'.open1.value.start == Floor(s.start, StepOf(1))
            && Ordered(e'.p1 + Held(e'.open1), StepOf(1))
            && Parts(e'.p1 + Held(e'.open1)) == Parts(e.p1 + Held(e.open1)) + [s]
  {
    if |e.p0| > 0 { FloorMonotone(e.p0[|e.p0| - 1].start, s.start, StepOf(1)); }
    HoldKeeps(e.p1, e.open1, StepOf(1), Group(s.start, [s]));
  }

  lemma TakeDone(e: Rollup, s: Sample)
    requires Sound(e) && Hold(e.open1, StepOf(1), Group(s.start, [s])).0.Some?
    ensures var e' := Take(e, s);
            && e'.open2.Some? && e'.open2.value.start == Floor(e.open1.value.start, StepOf(2))
            && e'.p1 == e.p1 + [e.open1.value]
            && Ordered(e'.p2 + Held(e'.open2), StepOf(2))
            && Parts(e'.p2 + Held(e'.open2)) == Parts(e.p2 + Held(e.open2)) + e.open1.value.parts
  {
    DoneGoesOn(e, s);
    var (done2, held2) := Hold(e.open2, StepOf(2), e.open1.value);
    assert Take(e, s).p2 == e.p2 + Held(done2);
  }

  /** The group level 1 completes is fit to be held by level 2. */
  lemma DoneGoesOn(e: Rollup, s: Sample)
    requires Sound(e)
    requires Hold(e.open1, StepOf(1), Group(s.start, [s])).0.Some?
    ensures var done := Hold(e.open1, StepOf(1), Group(s.start, [s])).0.value;
            var (done2, held2) := Hold(e.open2, StepOf(2), done);
            && done == e.open1.value
            && Ordered(e.p2 + Held(done2) + [held2], StepOf(2))
            && held2.start == Floor(done.start, StepOf(2))
            && Parts(e.p2 + Held(done2) + [held2]) == Parts(e.p2 + Held(e.open2)) + done.parts
  {
    var done := e.open1.value;
    var all := e.p1 + Held(e.open1);
    assert Fits(all[|e.p1|], StepOf(1));
    if |e.p1| > 0 {
      assert all[|e.p1| - 1].start < all[|e.p1|].start;
      FloorMonotone(e.p1[|e.p1| - 1].start, done.start, StepOf(2));
    }
    FloorContains(done.start);
    HoldKeeps(e.p2, e.open2, StepOf(2), done);
  }
}
