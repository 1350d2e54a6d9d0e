/** The report of a range: points, totals and dimension totals, and that each is
    the direct sum over the samples it covers. */
module TrafficReport {
  import opened Basics
  import opened TrafficFrames
  import opened TrafficRollup
  import opened TrafficWindows
  import opened TrafficModel
  import opened TrafficSampling
  import opened TrafficRestart
  import opened TrafficRuns

  /** A range of the dashboard: the resolution it reads and its number of points. */
  datatype Range = Range(level: nat, points: nat)

  function RangeOf(name: string): Option<Range> {
    if name == "1h" then Some(Range(0, 360))
    else if name == "6h" then Some(Range(1, 72))
    else if name == "24h" then Some(Range(1, 288))
    else if name == "7d" then Some(Range(2, 168))
    else None
  }

  lemma RangesFit(name: string)
    requires RangeOf(name).Some?
    ensures RangeOf(name).value.level < LEVELS && 0 < RangeOf(name).value.points <= CapOf(RangeOf(name).value.level)
  {
  }

  /** The frames a point of the report was merged from, if there were any. */
  datatype Slot = Slot(frame: Frame, present: bool)

  const NO_SLOT := Slot(Frame(0, ZERO_TOTALS, []), false)

  function Quot(x: int, step: Step): int {
    if step == 10 then x / 10 else if step == 300 then x / 300 else x / 3600
  }

  predicate SlotsShaped(slots: seq<Slot>) {
    forall i :: 0 <= i < |slots| ==> slots[i].frame.totals.Shaped()
  }

  predicate FramesShaped(fs: seq<Frame>) {
    forall i :: 0 <= i < |fs| ==> fs[i].totals.Shaped()
  }

  /** The place closure: a frame of the window goes to the point its start is in. */
  function Place(slots: seq<Slot>, f: Frame, start: int, step: Step): (r: seq<Slot>)
    requires SlotsShaped(slots) && f.totals.Shaped()
    ensures |r| == |slots| && SlotsShaped(r)
  {
    if f.start < start || f.start >= start + Times(|slots|, step) then slots
    else
      var i := Quot(f.start - start, step);
      slots[i := Slot(Merged(slots[i].frame, f), true)]
  }

  function PlaceAll(slots: seq<Slot>, fs: seq<Frame>, start: int, step: Step): (r: seq<Slot>)
    requires SlotsShaped(slots) && FramesShaped(fs)
    ensures |r| == |slots| && SlotsShaped(r)
  {
    if |fs| == 0 then slots
    else Place(PlaceAll(slots, fs[..|fs| - 1], start, step), fs[|fs| - 1], start, step)
  }

  function LevelOf(h: History, level: nat): Level
    requires level < LEVELS
  {
    if level == 0 then h.l0 else if level == 1 then h.l1 else h.l2
  }

  /** What a report of a level reads: its frames, its pending frame, and the
      pending frames of the finer levels above the finest. */
  function FramesRead(h: History, level: nat): seq<Frame>
    requires level < LEVELS
  {
    LevelOf(h, level).frames
    + (if level == 0 then Pending(h.l0) else if level == 1 then Pending(h.l1) else Pending(h.l2) + Pending(h.l1))
  }

  function EmptySlots(n: nat): seq<Slot> { seq(n, _ => NO_SLOT) }

  // ---- the loads of the slots ----

  /** Slot i stands for the groups that start in its interval. */
  ghost predicate SlotReps(slot: Slot, gs: seq<Group>, lo: int, hi: int, table: seq<string>) {
    && slot.frame.totals.Shaped() && IdsIn(slot.frame.dims, table)
    && AllShaped(GroupsWithin(gs, lo, hi))
    && LoadOf(slot.frame, table) == Sum(GroupsWithin(gs, lo, hi))
    && (slot.present <==> exists g :: g in gs && lo <= g.start < hi)
  }

  function SlotLo(start: int, i: nat, step: Step): int { start + Times(i, step) }

  lemma SlotOf(x: int, i: nat, n: nat, step: Step)
    requires 0 <= x < Times(n, step)
    ensures 0 <= Quot(x, step) < n
    ensures i == Quot(x, step) <==> Times(i, step) <= x < Times(i + 1, step)
  {
  }

  lemma {:induction false} PlacedReps(fs: seq<Frame>, gs: seq<Group>, start: int, step: Step, n: nat, i: nat, table: seq<string>)
    requires RepsAll(fs, gs, table) && i < n && FramesShaped(fs)
    ensures SlotReps(PlaceAll(EmptySlots(n), fs, start, step)[i], gs, SlotLo(start, i, step), SlotLo(start, i + 1, step), table)
  {
    var lo, hi := SlotLo(start, i, step), SlotLo(start, i + 1, step);
    if |fs| > 0 {
      var k := |fs| - 1;
      assert gs == gs[..k] + [gs[k]];
      PlacedReps(fs[..k], gs[..k], start, step, n, i, table);
      var before := PlaceAll(EmptySlots(n), fs[..k], start, step);
      assert Reps(fs[k], gs[k], table);
      PlaceReps(before, fs[k], gs[..k], gs[k], start, step, i, table);
    }
  }

  lemma PlaceReps(slots: seq<Slot>, f: Frame, gs: seq<Group>, g: Group, start: int, step: Step, i: nat, table: seq<string>)
    requires SlotsShaped(slots) && i < |slots| && Reps(f, g, table)
    requires SlotReps(slots[i], gs, SlotLo(start, i, step), SlotLo(start, i + 1, step), table)
    ensures SlotReps(Place(slots, f, start, step)[i], gs + [g], SlotLo(start, i, step), SlotLo(start, i + 1, step), table)
  {
    hide Times, Quot, Mod, Combine, LoadOf, Merged;
    var lo, hi := SlotLo(start, i, step), SlotLo(start, i + 1, step);
    var inWindow := !(f.start < start || f.start >= start + Times(|slots|, step));
    if inWindow { SlotOf(f.start - start, i, |slots|, step); }
    TimesGrows(i, |slots|, step);
    assert (gs + [g])[..|gs|] == gs;
    var mine := inWindow && Quot(f.start - start, step) == i;
    assert mine <==> lo <= g.start < hi;
    if mine {
      MergeAddsLoads(slots[i].frame, f, table);
      SumConcat(GroupsWithin(gs, lo, hi), g.parts);
      assert g in gs + [g];
    } else {
      assert Place(slots, f, start, step)[i] == slots[i];
    }
  }

  lemma TimesGrows(i: nat, n: nat, step: Step)
    requires i < n
    ensures 0 <= Times(i, step) < Times(i + 1, step) <= Times(n, step)
  {
  }

  // ---- totals over the slots ----

  /** The total frame's counters: those of every point with data. */
  function TotalOf(slots: seq<Slot>): (r: Totals)
    requires SlotsShaped(slots)
    ensures r.Shaped()
  {
    if |slots| == 0 then ZERO_TOTALS
    else
      var rest := TotalOf(slots[..|slots| - 1]);
      var s := slots[|slots| - 1];
      if s.present then AddTotals(rest, s.frame.totals) else rest
  }

  function AddId(m: map<nat, DimCounts>, d: DimFrame): map<nat, DimCounts> {
    m[d.id := if d.id in m then AddDimCounts(m[d.id], d.c) else d.c]
  }

  function AddIds(m: map<nat, DimCounts>, ds: seq<DimFrame>): map<nat, DimCounts> {
    if |ds| == 0 then m else AddId(AddIds(m, ds[..|ds| - 1]), ds[|ds| - 1])
  }

  /** dimTotals: what every dimension id counted in the range. */
  function DimTotalOf(slots: seq<Slot>): map<nat, DimCounts> {
    if |slots| == 0 then map[]
    else
      var rest := DimTotalOf(slots[..|slots| - 1]);
      var s := slots[|slots| - 1];
      if s.present then AddIds(rest, s.frame.dims) else rest
  }

  /** Dimension totals by id say the same as totals by key. */
  ghost predicate SameDims(byId: map<nat, DimCounts>, byKey: DimMap, table: seq<string>) {
    && (forall id :: id in byId ==> id < |table|)
    && (forall id :: 0 <= id < |table| ==>
          (id in byId <==> table[id] in byKey) && (id in byId ==> byId[id] == byKey[table[id]]))
    && (forall k :: k in byKey ==> k in table)
  }

  lemma AddIdSame(byId: map<nat, DimCounts>, byKey: DimMap, d: DimFrame, table: seq<string>)
    requires NoRepeats(table) && d.id < |table| && SameDims(byId, byKey, table)
    ensures SameDims(AddId(byId, d), AddKey(byKey, table[d.id], d.c), table)
  {
  }

  lemma {:induction false} AddIdsSame(byId: map<nat, DimCounts>, byKey: DimMap, ds: seq<DimFrame>, table: seq<string>)
    requires NoRepeats(table) && IdsIn(ds, table) && SameDims(byId, byKey, table)
    ensures SameDims(AddIds(byId, ds), Join(byKey, ByKey(ds, table)), table)
  {
    if |ds| == 0 {
      JoinLaws(byKey, map[]);
    } else {
      var n := |ds| - 1;
      AddIdsSame(byId, byKey, ds[..n], table);
      AddIdSame(AddIds(byId, ds[..n]), Join(byKey, ByKey(ds[..n], table)), ds[n], table);
      JoinAddKey(byKey, ByKey(ds[..n], table), table[ds[n].id], ds[n].c);
    }
  }

  ghost predicate SlotOk(slot: Slot, samples: seq<Sample>, table: seq<string>) {
    && slot.frame.totals.Shaped() && IdsIn(slot.frame.dims, table)
    && AllShaped(samples)
    && LoadOf(slot.frame, table) == Sum(samples)
    && (!slot.present ==> samples == [])
  }

  /** Summing the points one by one is summing the whole window. */
  lemma {:induction false} TotalsAreSums(slots: seq<Slot>, samples: seq<Sample>, start: int, step: Step, table: seq<string>)
    requires NoRepeats(table) && Rising(samples) && SlotsShaped(slots)
    requires forall i :: 0 <= i < |slots| ==> SlotOk(slots[i], Within(samples, SlotLo(start, i, step), SlotLo(start, i + 1, step)), table)
    ensures var window := Within(samples, start, SlotLo(start, |slots|, step));
            && AllShaped(window)
            && TotalOf(slots) == Sum(window).totals
            && SameDims(DimTotalOf(slots), Sum(window).dims, table)
  {
    hide Times, Mod, Rising, LoadOf, SameDims, NoRepeats, TotalOf, DimTotalOf;
    var n := |slots|;
    if n == 0 {
      NoSlots(slots, samples, start, step, table);
    } else {
      var lo, hi := SlotLo(start, n - 1, step), SlotLo(start, n, step);
      forall i | 0 <= i < n - 1
        ensures SlotOk(slots[..n - 1][i], Within(samples, SlotLo(start, i, step), SlotLo(start, i + 1, step)), table)
      {
        assert SlotOk(slots[i], Within(samples, SlotLo(start, i, step), SlotLo(start, i + 1, step)), table);
      }
      TotalsAreSums(slots[..n - 1], samples, start, step, table);
      TimesGrows(n - 1, n, step);
      WindowSplit(samples, start, lo, hi);
      OneMoreSlot(slots, Within(samples, start, lo), Within(samples, lo, hi), table);
    }
  }

  lemma NoSlots(slots: seq<Slot>, samples: seq<Sample>, start: int, step: Step, table: seq<string>)
    requires |slots| == 0 && SlotsShaped(slots)
    ensures var window := Within(samples, start, SlotLo(start, |slots|, step));
            && AllShaped(window)
            && TotalOf(slots) == Sum(window).totals
            && SameDims(DimTotalOf(slots), Sum(window).dims, table)
  {
    EmptyWindow(samples, start);
  }

  lemma OneMoreSlot(slots: seq<Slot>, rest: seq<Sample>, part: seq<Sample>, table: seq<string>)
    requires NoRepeats(table) && SlotsShaped(slots) && |slots| > 0
    requires SlotOk(slots[|slots| - 1], part, table) && AllShaped(rest)
    requires TotalOf(slots[..|slots| - 1]) == Sum(rest).totals
    requires SameDims(DimTotalOf(slots[..|slots| - 1]), Sum(rest).dims, table)
    ensures AllShaped(rest + part)
    ensures TotalOf(slots) == Sum(rest + part).totals && SameDims(DimTotalOf(slots), Sum(rest + part).dims, table)
  {
    var slot := slots[|slots| - 1];
    SumConcat(rest, part);
    if slot.present {
      AddIdsSame(DimTotalOf(slots[..|slots| - 1]), Sum(rest).dims, slot.frame.dims, table);
    } else {
      assert rest + part == rest;
    }
  }

  lemma {:induction false} EmptyWindow(samples: seq<Sample>, at: int)
    ensures Within(samples, at, at) == []
  {
    if |samples| > 0 { EmptyWindow(samples[..|samples| - 1], at); }
  }

  lemma {:induction false} WindowSplit(samples: seq<Sample>, lo: int, mid: int, hi: int)
    requires Rising(samples) && lo <= mid <= hi
    ensures Within(samples, lo, hi) == Within(samples, lo, mid) + Within(samples, mid, hi)
  {
    if |samples| > 0 {
      var n := |samples| - 1;
      WindowSplit(samples[..n], lo, mid, hi);
      if lo <= samples[n].start < mid {
        forall s | s in samples[..n]
          ensures !(mid <= s.start < hi)
        {
          var i :| 0 <= i < n && samples[i] == s;
        }
        WithinAllOrNone(samples[..n], mid, hi);
      }
    }
  }

  // ---- the report ----

  /** One point: a gap where no frame was placed, else the numbers of the merged frame. */
  datatype Point =
    | Gap
    | Data(secs: nat, bytesIn: nat, bytesOut: nat, requests: nat, status: Vec, blocked: nat, open: nat, latency: Vec)

  function SumVec(v: Vec): nat { if |v| == 0 then 0 else SumVec(v[..|v| - 1]) + v[|v| - 1] }

  /** What a point counts as its length: its seconds, or a whole step if it has none. */
  function SecsOf(t: Totals, step: Step): nat { if t.secs > 0 then t.secs else step }

  function PointOf(t: Totals, step: Step): Point {
    Data(SecsOf(t, step), t.bytesIn, t.bytesOut, t.requests, t.status, SumVec(t.blocked), t.active, t.latency)
  }

  function Points(slots: seq<Slot>, step: Step): seq<Point> {
    seq(|slots|, i requires 0 <= i < |slots| => if slots[i].present then PointOf(slots[i].frame.totals, step) else Gap)
  }

  datatype Report = Report(step: Step, start: int, lastSpan: nat, points: seq<Point>, totals: Totals, dims: map<nat, DimCounts>)

  function SlotsOf(h: History, rng: Range, now: nat): (r: seq<Slot>)
    requires rng.level < LEVELS && FramesShaped(FramesRead(h, rng.level))
    ensures |r| == rng.points && SlotsShaped(r)
  {
    var step := StepOf(rng.level);
    PlaceAll(EmptySlots(rng.points), FramesRead(h, rng.level), WindowEnd(now, step) - Times(rng.points, step), step)
  }

  function BuildReport(h: History, rng: Range, now: nat): Report
    requires rng.level < LEVELS && rng.points > 0 && FramesShaped(FramesRead(h, rng.level))
  {
    var step := StepOf(rng.level);
    var slots := SlotsOf(h, rng, now);
    var last := slots[rng.points - 1];
    Report(step, WindowEnd(now, step) - Times(rng.points, step),
           if last.present then SecsOf(last.frame.totals, step) else 0,
           Points(slots, step), TotalOf(slots), DimTotalOf(slots))
  }

  // ---- every number of a report is a direct sum over samples ----

  lemma FramesReadRep(h: History, e: Rollup, level: nat)
    requires Represents(h, e) && level < LEVELS
    ensures RepsAll(FramesRead(h, level), Shown(e, level), h.table)
  {
    hide Reps, Last, RepsAll;
    OpenReps(h.l1, e.p1, e.open1, CapOf(1), h.table);
    OpenReps(h.l2, e.p2, e.open2, CapOf(2), h.table);
    if level == 0 {
      RepsConcat(h.l0.frames, Last(e.p0, CapOf(0)), [], [], h.table);
    } else if level == 1 {
      RepsConcat(h.l1.frames, Last(e.p1, CapOf(1)), Pending(h.l1), Held(e.open1), h.table);
    } else {
      RepsConcat(Pending(h.l2), Held(e.open2), Pending(h.l1), Held(e.open1), h.table);
      RepsConcat(h.l2.frames, Last(e.p2, CapOf(2)), Pending(h.l2) + Pending(h.l1), Held(e.open2) + Held(e.open1), h.table);
    }
  }

  lemma OpenReps(l: Level, pushed: seq<Group>, open: Option<Group>, cap: nat, table: seq<string>)
    requires RepsLevel(l, pushed, open, cap, table)
    ensures RepsAll(l.frames, Last(pushed, cap), table) && RepsAll(Pending(l), Held(open), table)
  {
  }

  lemma RepsConcat(fs: seq<Frame>, gs: seq<Group>, fs': seq<Frame>, gs': seq<Group>, table: seq<string>)
    requires RepsAll(fs, gs, table) && (RepsAll(fs', gs', table) || (fs' == [] && gs' == []))
    ensures RepsAll(fs + fs', gs + gs', table)
  {
    hide Reps;
  }

  lemma RepsShaped(fs: seq<Frame>, gs: seq<Group>, table: seq<string>)
    requires RepsAll(fs, gs, table)
    ensures FramesShaped(fs)
  {
    forall i | 0 <= i < |fs|
      ensures fs[i].totals.Shaped()
    {
      assert Reps(fs[i], gs[i], table);
    }
  }

  /** Every group of a rollup holds at least one sample. */
  lemma {:induction false} GroupsNotEmpty(samples: seq<Sample>)
    ensures var e := RollupOf(samples);
            && (forall g :: g in e.p0 ==> g.parts != [])
            && (forall g :: g in e.p1 + Held(e.open1) ==> g.parts != [])
            && (forall g :: g in e.p2 + Held(e.open2) ==> g.parts != [])
  {
    if |samples| > 0 { GroupsNotEmpty(samples[..|samples| - 1]); }
  }

  lemma {:induction false} SomeGroup(gs: seq<Group>, lo: int, hi: int)
    requires forall g :: g in gs ==> g.parts != []
    ensures (exists g :: g in gs && lo <= g.start < hi) <==> GroupsWithin(gs, lo, hi) != []
  {
    if |gs| > 0 {
      var n := |gs| - 1;
      assert gs == gs[..n] + [gs[n]];
      SomeGroup(gs[..n], lo, hi);
      assert gs[n] in gs;
    }
  }

  lemma ShownNotEmpty(samples: seq<Sample>, level: nat)
    requires level < LEVELS
    ensures forall g :: g in Shown(RollupOf(samples), level) ==> g.parts != []
  {
    GroupsNotEmpty(samples);
    var e := RollupOf(samples);
    forall g | g in Shown(e, level)
      ensures g.parts != []
    {
      if g in Pushed(e, level) {
        assert g in e.p0 || g in e.p1 + Held(e.open1) || g in e.p2 + Held(e.open2);
      } else {
        assert g in e.p1 + Held(e.open1) || g in e.p2 + Held(e.open2);
      }
    }
  }

  ghost predicate Exact(slot: Slot, samples: seq<Sample>, table: seq<string>) {
    SlotOk(slot, samples, table) && (slot.present <==> samples != [])
  }

  /** Each slot is the direct sum over the samples of its level in its interval. */
  lemma SlotIsExact(h: History, samples: seq<Sample>, rng: Range, now: nat, i: nat)
    requires Represents(h, RollupOf(samples)) && Rising(samples) && NotAhead(samples, now)
    requires rng.level < LEVELS && i < rng.points <= CapOf(rng.level)
    ensures FramesShaped(FramesRead(h, rng.level))
    ensures var step := StepOf(rng.level);
            var start := WindowEnd(now, step) - Times(rng.points, step);
            Exact(SlotsOf(h, rng, now)[i], Within(Seen(samples, rng.level), SlotLo(start, i, step), SlotLo(start, i + 1, step)), h.table)
  {
    hide Times, Mod, WindowEnd, Shown, FramesRead, Represents, RepsAll, PlaceAll, Within, GroupsWithin, LoadOf, Rising, Seen, NotAhead;
    var step := StepOf(rng.level);
    var end := WindowEnd(now, step);
    var start := end - Times(rng.points, step);
    var lo, hi := SlotLo(start, i, step), SlotLo(start, i + 1, step);
    var gs := Shown(RollupOf(samples), rng.level);
    FramesReadRep(h, RollupOf(samples), rng.level);
    RepsShaped(FramesRead(h, rng.level), Shown(RollupOf(samples), rng.level), h.table);
    PlacedReps(FramesRead(h, rng.level), gs, start, step, rng.points, i, h.table);
    WindowEndFacts(now, step);
    SlotBounds(end, rng.points, i, step);
    WindowIsSeen(samples, rng.level, now, rng.points, lo, hi);
    ShownNotEmpty(samples, rng.level);
    SomeGroup(gs, lo, hi);
  }

  lemma SlotBounds(end: int, n: nat, i: nat, step: Step)
    requires Mod(end, step) == 0 && i < n
    ensures var start := end - Times(n, step);
            && start <= SlotLo(start, i, step) < SlotLo(start, i + 1, step) <= end
            && Mod(SlotLo(start, i, step), step) == 0 && Mod(SlotLo(start, i + 1, step), step) == 0
            && SlotLo(start, n, step) == end
  {
    SlotsOnSteps(end - Times(n, step), end, n, i, step);
    SlotsOnSteps(end - Times(n, step), end, n, i + 1, step);
  }

  /** Step boundaries stay step boundaries a number of steps away. */
  lemma SlotsOnSteps(start: int, end: int, n: nat, i: nat, step: Step)
    requires Mod(end, step) == 0 && i <= n && start == end - Times(n, step)
    ensures start <= SlotLo(start, i, step) <= end && Mod(SlotLo(start, i, step), step) == 0
  {
    assert SlotLo(start, i, step) == end - Times(n - i, step);
  }

  /** What a report is made of: every point from the sum of the samples of its interval,
      a gap exactly where there are none; the totals and the dimension totals from the
      sum of the samples of the whole range. */
  ghost predicate SumsUp(r: Report, samples: seq<Sample>, table: seq<string>, end: int) {
    && r.start == end - Times(|r.points|, r.step)
    && (forall i :: 0 <= i < |r.points| ==>
          var part := Within(samples, SlotLo(r.start, i, r.step), SlotLo(r.start, i + 1, r.step));
          AllShaped(part) && r.points[i] == if part == [] then Gap else PointOf(Sum(part).totals, r.step))
    && (var all := Within(samples, r.start, end);
        AllShaped(all) && r.totals == Sum(all).totals && SameDims(r.dims, Sum(all).dims, table))
  }

  lemma SeenRises(samples: seq<Sample>, level: nat)
    requires Rising(samples) && level < LEVELS
    ensures Rising(Seen(samples, level))
  {
  }

  /** Every range's report is made from the sums over the samples in its window of which
      its level still has frames. */
  lemma ReportSumsUp(h: History, samples: seq<Sample>, rng: Range, now: nat)
    requires Represents(h, RollupOf(samples)) && Rising(samples) && NotAhead(samples, now) && NoRepeats(h.table)
    requires rng.level < LEVELS && 0 < rng.points <= CapOf(rng.level)
    ensures FramesShaped(FramesRead(h, rng.level))
    ensures SumsUp(BuildReport(h, rng, now), Seen(samples, rng.level), h.table, WindowEnd(now, StepOf(rng.level)))
    ensures |BuildReport(h, rng, now).points| == rng.points
    ensures BuildReport(h, rng, now).step == StepOf(rng.level)
  {
    hide Times, Mod, WindowEnd, FramesRead, Represents, RepsAll, Within, Rising, ByKey, SlotsOf, PointOf, TotalOf, DimTotalOf, SameDims;
    hide NotAhead, Seen, Exact, SumsUp;
    FramesReadRep(h, RollupOf(samples), rng.level);
    RepsShaped(FramesRead(h, rng.level), Shown(RollupOf(samples), rng.level), h.table);
    var seen, step := Seen(samples, rng.level), StepOf(rng.level);
    var end := WindowEnd(now, step);
    var start := end - Times(rng.points, step);
    var slots := SlotsOf(h, rng, now);
    SeenRises(samples, rng.level);
    forall i | 0 <= i < rng.points
      ensures Exact(slots[i], Within(seen, SlotLo(start, i, step), SlotLo(start, i + 1, step)), h.table)
    {
      SlotIsExact(h, samples, rng, now, i);
    }
    WindowEndFacts(now, step);
    var last := slots[rng.points - 1];
    SlotsAreDirectSum(slots, seen, start, end, step, if last.present then SecsOf(last.frame.totals, step) else 0, h.table);
  }

  lemma SlotsAreDirectSum(slots: seq<Slot>, samples: seq<Sample>, start: int, end: int, step: Step, lastSpan: nat, table: seq<string>)
    requires NoRepeats(table) && Rising(samples) && SlotsShaped(slots) && |slots| > 0
    requires Mod(end, step) == 0 && start == end - Times(|slots|, step)
    requires forall i :: 0 <= i < |slots| ==> Exact(slots[i], Within(samples, SlotLo(start, i, step), SlotLo(start, i + 1, step)), table)
    ensures SumsUp(Report(step, start, lastSpan, Points(slots, step), TotalOf(slots), DimTotalOf(slots)), samples, table, end)
  {
    hide Exact, Within, Rising, Times, Mod, TotalOf, DimTotalOf, SameDims, PointOf, Sum;
    SlotBounds(end, |slots|, 0, step);
    SumOfSlots(slots, samples, start, step, table);
    PointsAreSums(slots, samples, start, step, table);
  }

  lemma SumOfSlots(slots: seq<Slot>, samples: seq<Sample>, start: int, step: Step, table: seq<string>)
    requires NoRepeats(table) && Rising(samples) && SlotsShaped(slots)
    requires forall i :: 0 <= i < |slots| ==> Exact(slots[i], Within(samples, SlotLo(start, i, step), SlotLo(start, i + 1, step)), table)
    ensures var window := Within(samples, start, SlotLo(start, |slots|, step));
            && AllShaped(window)
            && TotalOf(slots) == Sum(window).totals
            && SameDims(DimTotalOf(slots), Sum(window).dims, table)
  {
    hide SlotOk, Within, Rising, TotalOf, DimTotalOf, SameDims;
    TotalsAreSums(slots, samples, start, step, table);
  }

  lemma PointsAreSums(slots: seq<Slot>, samples: seq<Sample>, start: int, step: Step, table: seq<string>)
    requires SlotsShaped(slots)
    requires forall i :: 0 <= i < |slots| ==> Exact(slots[i], Within(samples, SlotLo(start, i, step), SlotLo(start, i + 1, step)), table)
    ensures forall i :: 0 <= i < |slots| ==>
              var part := Within(samples, SlotLo(start, i, step), SlotLo(start, i + 1, step));
              AllShaped(part) && Points(slots, step)[i] == if part == [] then Gap else PointOf(Sum(part).totals, step)
  {
    hide Within, PointOf, Sum, SlotLo;
    forall i | 0 <= i < |slots|
      ensures var part := Within(samples, SlotLo(start, i, step), SlotLo(start, i + 1, step));
              AllShaped(part) && Points(slots, step)[i] == if part == [] then Gap else PointOf(Sum(part).totals, step)
    {
      assert Exact(slots[i], Within(samples, SlotLo(start, i, step), SlotLo(start, i + 1, step)), table);
    }
  }

  // ---- what a report promises, number by number ----

  /** A number a sample holds. */
  datatype Measure =
    | Seconds | TotalIn | TotalOut | TotalRequests | TotalConns
    | StatusClass(i: nat) | Version(i: nat) | Reason(i: nat) | LatencyBucket(i: nat)
    | KeyIn(k: string) | KeyOut(k: string) | KeyCount(k: string) | KeyErrs(k: string)

  function Entry(v: Vec, i: nat): nat { if i < |v| then v[i] else 0 }

  function Measured(m: Measure, l: Load): nat {
    match m
    case Seconds => l.totals.secs
    case TotalIn => l.totals.bytesIn
    case TotalOut => l.totals.bytesOut
    case TotalRequests => l.totals.requests
    case TotalConns => l.totals.conns
    case StatusClass(i) => Entry(l.totals.status, i)
    case Version(i) => Entry(l.totals.proto, i)
    case Reason(i) => Entry(l.totals.blocked, i)
    case LatencyBucket(i) => Entry(l.totals.latency, i)
    case KeyIn(k) => DimOf(l, k).bytesIn
    case KeyOut(k) => DimOf(l, k).bytesOut
    case KeyCount(k) => DimOf(l, k).count
    case KeyErrs(k) => DimOf(l, k).errs
  }

  /** The number added up over the samples, one by one. */
  ghost function Over(samples: seq<Sample>, m: Measure): nat {
    if |samples| == 0 then 0 else Over(samples[..|samples| - 1], m) + Measured(m, samples[|samples| - 1].load)
  }

  /** n is the largest number of open connections any of the samples saw. */
  ghost predicate Peak(n: nat, samples: seq<Sample>) {
    && (forall s :: s in samples ==> s.load.totals.active <= n)
    && (if samples == [] then n == 0 else exists s :: s in samples && s.load.totals.active == n)
  }

  ghost predicate KeyPeak(n: nat, samples: seq<Sample>, k: string) {
    && (forall s :: s in samples && k in s.load.dims ==> s.load.dims[k].active <= n)
    && exists s :: s in samples && k in s.load.dims && s.load.dims[k].active == n
  }

  /** Every number of a point is that of the samples of its interval. */
  ghost predicate PointSums(p: Point, part: seq<Sample>, step: Step) {
    && p.Data?
    && p.secs == (if Over(part, Seconds) == 0 then step else Over(part, Seconds))
    && p.bytesIn == Over(part, TotalIn) && p.bytesOut == Over(part, TotalOut) && p.requests == Over(part, TotalRequests)
    && |p.status| == 4 && (forall i :: 0 <= i < 4 ==> p.status[i] == Over(part, StatusClass(i)))
    && p.blocked == Over(part, Reason(0)) + Over(part, Reason(1)) + Over(part, Reason(2)) + Over(part, Reason(3)) + Over(part, Reason(4))
                    + Over(part, Reason(5)) + Over(part, Reason(6)) + Over(part, Reason(7)) + Over(part, Reason(8)) + Over(part, Reason(9))
    && Peak(p.open, part)
    && |p.latency| == 12 && (forall i :: 0 <= i < 12 ==> p.latency[i] == Over(part, LatencyBucket(i)))
  }

  ghost predicate TotalsSum(t: Totals, all: seq<Sample>) {
    && t.secs == Over(all, Seconds)
    && t.bytesIn == Over(all, TotalIn) && t.bytesOut == Over(all, TotalOut) && t.requests == Over(all, TotalRequests)
    && t.conns == Over(all, TotalConns)
    && |t.status| == 4 && (forall i :: 0 <= i < 4 ==> t.status[i] == Over(all, StatusClass(i)))
    && |t.proto| == 3 && (forall i :: 0 <= i < 3 ==> t.proto[i] == Over(all, Version(i)))
    && |t.blocked| == 10 && (forall i :: 0 <= i < 10 ==> t.blocked[i] == Over(all, Reason(i)))
    && |t.latency| == 12 && (forall i :: 0 <= i < 12 ==> t.latency[i] == Over(all, LatencyBucket(i)))
    && Peak(t.active, all)
  }

  ghost predicate KeySums(d: DimCounts, all: seq<Sample>, k: string) {
    && d.bytesIn == Over(all, KeyIn(k)) && d.bytesOut == Over(all, KeyOut(k))
    && d.count == Over(all, KeyCount(k)) && d.errs == Over(all, KeyErrs(k))
    && KeyPeak(d.active, all, k)
  }

  /** The dimensions of a report are those any of the samples has, with their numbers. */
  ghost predicate DimsSum(dims: map<nat, DimCounts>, all: seq<Sample>, table: seq<string>) {
    && (forall id :: id in dims ==> id < |table|)
    && (forall s, k :: s in all && k in s.load.dims ==> k in table)
    && (forall id :: 0 <= id < |table| ==> (id in dims <==> exists s :: s in all && table[id] in s.load.dims))
    && (forall id :: id in dims && id < |table| ==>
          KeySums(dims[id], all, table[id]))
  }

  /** What a report promises: every point holds the numbers of the samples that start in
      its interval and is a gap exactly where there are none; the totals and the
      dimension totals hold those of the whole window. */
  ghost predicate DirectSum(r: Report, samples: seq<Sample>, table: seq<string>, end: int) {
    && r.start == end - |r.points| * r.step
    && (forall i :: 0 <= i < |r.points| ==>
          var part := Within(samples, r.start + i * r.step, r.start + (i + 1) * r.step);
          if part == [] then r.points[i] == Gap else PointSums(r.points[i], part, r.step))
    && TotalsSum(r.totals, Within(samples, r.start, end))
    && DimsSum(r.dims, Within(samples, r.start, end), table)
    && r.lastSpan == if |r.points| == 0 || r.points[|r.points| - 1].Gap? then 0 else r.points[|r.points| - 1].secs
  }

  lemma MeasuredAdds(m: Measure, a: Load, b: Load)
    requires a.totals.Shaped() && b.totals.Shaped()
    ensures Measured(m, Combine(a, b)) == Measured(m, a) + Measured(m, b)
  {
  }

  lemma {:induction false} OverIsSum(samples: seq<Sample>, m: Measure)
    requires AllShaped(samples)
    ensures Over(samples, m) == Measured(m, Sum(samples))
  {
    hide Measured, Combine;
    if |samples| == 0 {
      assert Measured(m, ZERO_LOAD) == 0 by { ZeroMeasures(m); }
    } else {
      var front, s := samples[..|samples| - 1], samples[|samples| - 1];
      OverIsSum(front, m);
      MeasuredAdds(m, Sum(front), s.load);
    }
  }

  lemma ZeroMeasures(m: Measure)
    ensures Measured(m, ZERO_LOAD) == 0
  {
  }

  lemma {:induction false} PeakOfSum(samples: seq<Sample>)
    requires AllShaped(samples)
    ensures Peak(Sum(samples).totals.active, samples)
  {
    if |samples| > 0 {
      var front, s := samples[..|samples| - 1], samples[|samples| - 1];
      assert samples == front + [s];
      PeakOfSum(front);
      var n := Sum(samples).totals.active;
      assert n == Max(Sum(front).totals.active, s.load.totals.active);
      if n == s.load.totals.active {
        assert s in samples;
      } else {
        var t :| t in front && t.load.totals.active == n;
        assert t in samples;
      }
    }
  }

  lemma {:induction false} KeysOfSum(samples: seq<Sample>, k: string)
    requires AllShaped(samples)
    ensures k in Sum(samples).dims <==> exists s :: s in samples && k in s.load.dims
    ensures k in Sum(samples).dims ==> KeyPeak(Sum(samples).dims[k].active, samples, k)
  {
    if |samples| > 0 {
      var front, s := samples[..|samples| - 1], samples[|samples| - 1];
      assert samples == front + [s];
      KeysOfSum(front, k);
      if k in Sum(front).dims {
        var n := Sum(samples).dims[k].active;
        var t :| t in front && k in t.load.dims && t.load.dims[k].active == Sum(front).dims[k].active;
        assert t in samples && s in samples;
        assert n == t.load.dims[k].active || (k in s.load.dims && n == s.load.dims[k].active);
      } else if k in s.load.dims {
        assert s in samples;
      }
    }
  }

  lemma SumVecOfTen(v: Vec)
    requires |v| == 10
    ensures SumVec(v) == v[0] + v[1] + v[2] + v[3] + v[4] + v[5] + v[6] + v[7] + v[8] + v[9]
  {
    hide SumVec;
    SumVecStep(v, 9);
    SumVecStep(v, 8);
    SumVecStep(v, 7);
    SumVecStep(v, 6);
    SumVecStep(v, 5);
    SumVecStep(v, 4);
    SumVecStep(v, 3);
    SumVecStep(v, 2);
    SumVecStep(v, 1);
    SumVecStep(v, 0);
    assert v[..10] == v;
  }

  lemma SumVecStep(v: Vec, n: nat)
    requires n < |v|
    ensures SumVec(v[..n + 1]) == SumVec(v[..n]) + v[n]
    ensures SumVec(v[..0]) == 0
  {
    assert v[..n + 1][..n] == v[..n];
  }

  lemma PointHasSums(part: seq<Sample>, step: Step)
    requires AllShaped(part)
    ensures PointSums(PointOf(Sum(part).totals, step), part, step)
  {
    hide Sum, SumVec;
    var t := Sum(part).totals;
    forall m: Measure ensures Over(part, m) == Measured(m, Sum(part)) { OverIsSum(part, m); }
    PeakOfSum(part);
    SumVecOfTen(t.blocked);
  }

  lemma TotalsHaveSums(all: seq<Sample>)
    requires AllShaped(all)
    ensures TotalsSum(Sum(all).totals, all)
  {
    hide Sum;
    forall m: Measure ensures Over(all, m) == Measured(m, Sum(all)) { OverIsSum(all, m); }
    PeakOfSum(all);
  }

  lemma KeyHasSums(all: seq<Sample>, k: string)
    requires AllShaped(all)
    ensures k in Sum(all).dims <==> exists s :: s in all && k in s.load.dims
    ensures k in Sum(all).dims ==> KeySums(Sum(all).dims[k], all, k)
  {
    hide Sum, KeyPeak;
    KeysOfSum(all, k);
    OverIsSum(all, KeyIn(k));
    OverIsSum(all, KeyOut(k));
    OverIsSum(all, KeyCount(k));
    OverIsSum(all, KeyErrs(k));
  }

  lemma DimsHaveSums(dims: map<nat, DimCounts>, all: seq<Sample>, table: seq<string>)
    requires AllShaped(all) && SameDims(dims, Sum(all).dims, table)
    ensures DimsSum(dims, all, table)
  {
    hide Sum, KeySums, AllShaped;
    forall k
      ensures k in Sum(all).dims <==> exists s :: s in all && k in s.load.dims
      ensures k in Sum(all).dims ==> KeySums(Sum(all).dims[k], all, k)
    {
      KeyHasSums(all, k);
    }
    forall s, k | s in all && k in s.load.dims
      ensures k in table
    {
      assert k in Sum(all).dims;
    }
  }

  lemma TimesIsProduct(k: int, step: Step)
    ensures Times(k, step) == k * step
  {
  }

  /** A report made of sums holds every number it promises. */
  lemma SumsAreDirect(r: Report, samples: seq<Sample>, table: seq<string>, end: int)
    requires SumsUp(r, samples, table, end)
    requires r.lastSpan == if |r.points| == 0 || r.points[|r.points| - 1].Gap? then 0 else r.points[|r.points| - 1].secs
    ensures DirectSum(r, samples, table, end)
  {
    hide Within, Sum, PointOf, PointSums, TotalsSum, DimsSum, SameDims;
    TimesIsProduct(|r.points|, r.step);
    var all := Within(samples, r.start, end);
    TotalsHaveSums(all);
    DimsHaveSums(r.dims, all, table);
    forall i | 0 <= i < |r.points|
      ensures var part := Within(samples, r.start + i * r.step, r.start + (i + 1) * r.step);
              if part == [] then r.points[i] == Gap else PointSums(r.points[i], part, r.step)
    {
      TimesIsProduct(i, r.step);
      TimesIsProduct(i + 1, r.step);
      PointHasSums(Within(samples, SlotLo(r.start, i, r.step), SlotLo(r.start, i + 1, r.step)), r.step);
    }
  }

  lemma LastSpanIsLast(h: History, rng: Range, now: nat)
    requires rng.level < LEVELS && rng.points > 0 && FramesShaped(FramesRead(h, rng.level))
    ensures var r := BuildReport(h, rng, now);
      r.lastSpan == if |r.points| == 0 || r.points[|r.points| - 1].Gap? then 0 else r.points[|r.points| - 1].secs
  {
    hide SlotsOf, TotalOf, DimTotalOf;
  }

  // ---- what the finest range has lost ----

  lemma {:induction false} WithinWithin(samples: seq<Sample>, lo: int, hi: int, a: int, b: int)
    requires lo <= a && b <= hi
    ensures Within(Within(samples, lo, hi), a, b) == Within(samples, a, b)
  {
    if |samples| > 0 {
      var front, s := samples[..|samples| - 1], samples[|samples| - 1];
      WithinWithin(front, lo, hi, a, b);
      if lo <= s.start < hi { assert (Within(front, lo, hi) + [s])[..|Within(front, lo, hi)|] == Within(front, lo, hi); }
    }
  }

  /** A report depends on the samples of its window alone. */
  lemma OnlyTheWindow(r: Report, a: seq<Sample>, b: seq<Sample>, table: seq<string>, end: int)
    requires SumsUp(r, a, table, end) && Within(a, r.start, end) == Within(b, r.start, end)
    ensures SumsUp(r, b, table, end)
  {
    hide Within, Times, PointOf, Sum, SameDims;
    forall i | 0 <= i < |r.points|
      ensures Within(a, SlotLo(r.start, i, r.step), SlotLo(r.start, i + 1, r.step))
           == Within(b, SlotLo(r.start, i, r.step), SlotLo(r.start, i + 1, r.step))
    {
      PointInWindow(r.start, i, |r.points|, r.step, end);
      WithinWithin(a, r.start, end, SlotLo(r.start, i, r.step), SlotLo(r.start, i + 1, r.step));
      WithinWithin(b, r.start, end, SlotLo(r.start, i, r.step), SlotLo(r.start, i + 1, r.step));
    }
  }

  lemma PointInWindow(start: int, i: nat, n: nat, step: Step, end: int)
    requires i < n && start == end - Times(n, step)
    ensures start <= SlotLo(start, i, step) && SlotLo(start, i + 1, step) <= end
  {
    TimesGrows(i, n, step);
  }

  lemma WindowEndsByNow(now: nat)
    ensures WindowEnd(now, StepOf(0)) <= now
  {
  }

  /** The samples of a range's window all have frames: always but for the finest range,
      and there exactly if no more samples start in the window or after it than the ring
      holds. */
  ghost predicate WindowKept(samples: seq<Sample>, rng: Range, now: nat)
    requires rng.level < LEVELS
  {
    var end := WindowEnd(now, StepOf(rng.level));
    rng.level > 0 || RoomFor(samples, CapOf(0), end - Times(rng.points, StepOf(0)), end, now)
  }

  lemma WindowKeptExactly(samples: seq<Sample>, rng: Range, now: nat)
    requires Rising(samples) && NotAhead(samples, now) && rng.level < LEVELS
    ensures var end := WindowEnd(now, StepOf(rng.level));
            var start := end - Times(rng.points, StepOf(rng.level));
            Within(Seen(samples, rng.level), start, end) == Within(samples, start, end) <==> WindowKept(samples, rng, now)
  {
    hide Within, Rising, NotAhead, RoomFor;
    if rng.level == 0 {
      WindowEndsByNow(now);
      var end := WindowEnd(now, StepOf(0));
      KeptExactly(samples, CapOf(0), end - Times(rng.points, StepOf(0)), end, now);
    }
  }

  /** With one sample a step, the newest of them over, nothing of the window is lost. */
  lemma KeptOnTheClock(samples: seq<Sample>, rng: Range, now: nat)
    requires Increasing(samples) && Before(samples, now) && rng.level < LEVELS && rng.points <= CapOf(rng.level)
    ensures WindowKept(samples, rng, now)
  {
    hide Within, GroupsWithin, RoomFor, Times, WindowEnd;
    WindowKeptExactly(samples, rng, now);
    if rng.level == 0 {
      var end := WindowEnd(now, StepOf(0));
      var start := end - Times(rng.points, StepOf(0));
      WindowEndFacts(now, StepOf(0));
      StartOnStep(end, rng.points);
      WindowIsExact(samples, 0, now, rng.points, start, end);
      FinestWindow(samples, start, end);
    }
  }

  lemma StartOnStep(end: int, n: nat)
    requires Mod(end, StepOf(0)) == 0
    ensures Mod(end - Times(n, StepOf(0)), StepOf(0)) == 0
  {
  }

  /** The range asked for, as its name says, up to the end of the step that is under way. */
  ghost predicate Spans(r: Report, name: string, now: nat) {
    var end, newest := r.start + |r.points| * r.step, now - now % 10;
    && newest <= end < newest + r.step
    && (name == "1h" ==> r.step == 10 && |r.points| == 360 && end % 10 == 0)
    && (name == "6h" ==> r.step == 300 && |r.points| == 72 && end % 300 == 0)
    && (name == "24h" ==> r.step == 300 && |r.points| == 288 && end % 300 == 0)
    && (name == "7d" ==> r.step == 3600 && |r.points| == 168 && end % 3600 == 0)
  }

  lemma ReportStarts(h: History, rng: Range, now: nat)
    requires rng.level < LEVELS && rng.points > 0 && FramesShaped(FramesRead(h, rng.level))
    ensures var r, step := BuildReport(h, rng, now), StepOf(rng.level);
      r.step == step && r.start == WindowEnd(now, step) - Times(rng.points, step)
  {
  }

  /** So it holds the numbers of those samples. */
  lemma ReportIsDirectSum(h: History, samples: seq<Sample>, rng: Range, now: nat)
    requires Represents(h, RollupOf(samples)) && Rising(samples) && NotAhead(samples, now) && NoRepeats(h.table)
    requires rng.level < LEVELS && 0 < rng.points <= CapOf(rng.level)
    ensures FramesShaped(FramesRead(h, rng.level)) && |BuildReport(h, rng, now).points| == rng.points
    ensures DirectSum(BuildReport(h, rng, now), Seen(samples, rng.level), h.table, WindowEnd(now, StepOf(rng.level)))
  {
    hide BuildReport, Represents, WindowEnd, FramesRead, Rising, NotAhead, Seen, SumsUp, DirectSum;
    ReportSumsUp(h, samples, rng, now);
    LastSpanIsLast(h, rng, now);
    SumsAreDirect(BuildReport(h, rng, now), Seen(samples, rng.level), h.table, WindowEnd(now, StepOf(rng.level)));
  }

  lemma WindowEndsInStep(now: nat, step: Step)
    ensures now - now % 10 <= WindowEnd(now, step) < now - now % 10 + step
    ensures Mod(WindowEnd(now, step), step) == 0
  {
    WindowEndFacts(now, step);
  }

  /** A ring holds as many frames as its widest range has points, no more and no fewer. */
  lemma RangesKnown(name: string, level: nat)
    requires level < LEVELS
    ensures RangeOf(name).Some? <==> name in {"1h", "6h", "24h", "7d"}
    ensures RangeOf(name).Some? ==> RangeOf(name).value.points <= CapOf(RangeOf(name).value.level)
    ensures exists widest :: RangeOf(widest) == Some(Range(level, CapOf(level)))
  {
    var widest := if level == 0 then "1h" else if level == 1 then "24h" else "7d";
    assert RangeOf(widest) == Some(Range(level, CapOf(level)));
  }

  lemma ReportSpans(h: History, name: string, now: nat)
    requires RangeOf(name).Some? && RangeOf(name).value.level < LEVELS && RangeOf(name).value.points > 0
    requires FramesShaped(FramesRead(h, RangeOf(name).value.level))
    ensures Spans(BuildReport(h, RangeOf(name).value, now), name, now)
  {
    hide SlotsOf, WindowEnd, FramesRead, TotalOf, DimTotalOf;
    var rng := RangeOf(name).value;
    WindowEndsInStep(now, StepOf(rng.level));
    TimesIsProduct(rng.points, StepOf(rng.level));
  }

  /** The main result on reports: after any run, restarts and compactions included, the
      report of every range as of any moment no earlier than the newest sample sums the
      samples in its window of which there are frames; and that is all of them exactly
      where `WindowKept` says. */
  lemma ReportAfterAnyRun(run: seq<Moment>, h: History, max: nat, name: string, now: nat)
    requires Run(run, h, max) && Timely(run) && Rising(SamplesOf(run)) && NotAhead(SamplesOf(run), now)
    requires RangeOf(name).Some?
    ensures var rng, samples := RangeOf(name).value, SamplesOf(run);
            && rng.level < LEVELS && rng.points > 0 && FramesShaped(FramesRead(h, rng.level))
            && var r, end := BuildReport(h, rng, now), WindowEnd(now, StepOf(rng.level));
               && |r.points| == rng.points
               && Spans(r, name, now)
               && DirectSum(r, Seen(samples, rng.level), h.table, end)
               && (Within(Seen(samples, rng.level), r.start, end) == Within(samples, r.start, end) <==> WindowKept(samples, rng, now))
               && (WindowKept(samples, rng, now) ==> DirectSum(r, samples, h.table, end))
  {
    hide BuildReport, Represents, WindowEnd, FramesRead, FramesShaped, Within, WindowKept, Seen, Times;
    hide Run, Timely, Rising, NotAhead, SumsUp, DirectSum, Spans;
    RangesFit(name);
    RunTracks(run, h, max);
    TrackedTable(h, SamplesOf(run), max);
    var rng, samples := RangeOf(name).value, SamplesOf(run);
    var end := WindowEnd(now, StepOf(rng.level));
    ReportSumsUp(h, samples, rng, now);
    WindowKeptExactly(samples, rng, now);
    var r := BuildReport(h, rng, now);
    ReportSpans(h, name, now);
    ReportStarts(h, rng, now);
    LastSpanIsLast(h, rng, now);
    SumsAreDirect(r, Seen(samples, rng.level), h.table, end);
    if WindowKept(samples, rng, now) {
      OnlyTheWindow(r, Seen(samples, rng.level), samples, h.table, end);
      SumsAreDirect(r, samples, h.table, end);
    }
  }

  lemma TrackedTable(h: History, samples: seq<Sample>, max: nat)
    requires Tracks(h, samples, max)
    ensures Represents(h, RollupOf(samples)) && NoRepeats(h.table)
  {
  }

  /** In any run that samples on the clock, at most once a step, with any compactions
      and restarts on the way, the report of every range as of any moment not before the
      end of the newest sample is the direct sum over the samples that start in its
      window. */
  lemma EveryReportIsDirectSum(run: seq<Moment>, h: History, max: nat, name: string, now: nat)
    requires Run(run, h, max) && Timely(run) && Increasing(SamplesOf(run)) && Before(SamplesOf(run), now)
    requires RangeOf(name).Some?
    ensures var rng := RangeOf(name).value;
            && rng.level < LEVELS && rng.points > 0 && FramesShaped(FramesRead(h, rng.level))
            && |BuildReport(h, rng, now).points| == rng.points
            && Spans(BuildReport(h, rng, now), name, now)
            && DirectSum(BuildReport(h, rng, now), SamplesOf(run), h.table, WindowEnd(now, StepOf(rng.level)))
  {
    hide DirectSum, Spans, BuildReport, WindowEnd, FramesRead, FramesShaped, Run, Timely, WindowKept;
    RangesFit(name);
    KeptOnTheClock(SamplesOf(run), RangeOf(name).value, now);
    ReportAfterAnyRun(run, h, max, name, now);
  }

  // ---- a restart within a sample step ----

  /** A sampling with nothing to count, of `secs` seconds. */
  function Quiet(end: nat, secs: nat): Input { Input(ZERO_SNAPSHOT, [], end, secs) }

  ghost predicate Samples(m: Moment, end: nat, secs: nat) { m.Sampling? && m.inp == Quiet(end, secs) }

  lemma NothingUnknown(h: History, max: nat)
    ensures !Overflows(h, ZERO_SNAPSHOT, max)
  {
    assert (set k | k in ZERO_SNAPSHOT.dims && k !in h.ids) == {};
  }

  lemma QuietTable(h: History, max: nat, end: nat, secs: nat)
    requires Ready(h) && end >= SAMPLE_STEP
    ensures Record(h, Quiet(end, secs), max).table == h.table
  {
  }

  lemma QuietEnabled(h: History, max: nat, samples: seq<Sample>, end: nat, secs: nat)
    requires Tracks(h, samples, max) && end >= SAMPLE_STEP
    ensures Ready(h) && WellRead(Quiet(end, secs)) && GatherOk(Diff(h, Quiet(end, secs), max), max)
    ensures SampleStep(h, h, Quiet(end, secs), SampleOf(h, Quiet(end, secs), max), Record(h, Quiet(end, secs), max), max)
  {
    hide Overflows, Represents, TableOk, GatherOk, SampleStep, Record;
    NothingUnknown(h, max);
    RepresentedIsReady(h, RollupOf(samples));
    StepEnabled(h, h, Quiet(end, secs), max, samples);
  }

  lemma QuietStep(run: seq<Moment>, h: History, max: nat, end: nat, secs: nat) returns (m: Moment, h': History)
    requires Run(run, h, max) && Timely(run) && h.table == [] && end >= SAMPLE_STEP
    ensures Run(run + [m], h', max) && h'.table == [] && Samples(m, end, secs)
    ensures m.s.start == end - SAMPLE_STEP
  {
    hide Tracks, Lean, Timely, IdsKnown, SampleStep, GatherOk, Record, Quiet;
    RunTracks(run, h, max);
    QuietEnabled(h, max, SamplesOf(run), end, secs);
    QuietTable(h, max, end, secs);
    StartsBeforeEnd(h, max, end, secs);
    var inp := Quiet(end, secs);
    m, h' := Sampling(h, h, inp, SampleOf(h, inp, max)), Record(h, inp, max);
    assert (run + [m])[..|run|] == run;
  }

  lemma StartsBeforeEnd(h: History, max: nat, end: nat, secs: nat)
    requires Ready(h) && WellRead(Quiet(end, secs)) && GatherOk(Diff(h, Quiet(end, secs), max), max)
    ensures SampleOf(h, Quiet(end, secs), max).start == end - SAMPLE_STEP
  {
  }

  lemma {:induction false} SamplesOfSamplings(run: seq<Moment>)
    requires forall i :: 0 <= i < |run| ==> run[i].Sampling?
    ensures |SamplesOf(run)| == |run| && forall i :: 0 <= i < |run| ==> SamplesOf(run)[i] == run[i].s
  {
    if |run| > 0 { SamplesOfSamplings(run[..|run| - 1]); }
  }

  /** What step i of the hour covers: ten seconds, or five where a shutdown cuts it short. */
  function Covered(i: nat): nat { if i < 359 then 10 else 5 }

  /** Every step of the hour from 3600 on was sampled once, so far. */
  ghost predicate EveryStep(run: seq<Moment>) {
    forall i :: 0 <= i < |run| ==> Samples(run[i], 3610 + 10 * i, Covered(i)) && run[i].s.start == 3600 + 10 * i
  }

  lemma EveryStepTimely(run: seq<Moment>)
    requires EveryStep(run)
    ensures Timely(run)
  {
    assert forall i :: 0 <= i < |run| ==> Samples(run[i], 3610 + 10 * i, Covered(i));
  }

  lemma OneMoreStep(run: seq<Moment>, m: Moment)
    requires EveryStep(run)
    requires Samples(m, 3610 + 10 * |run|, Covered(|run|)) && m.s.start == 3600 + 10 * |run|
    ensures EveryStep(run + [m])
  {
  }

  lemma {:induction false} QuietSteps(n: nat, max: nat) returns (run: seq<Moment>, h: History)
    ensures Run(run, h, max) && |run| == n && h.table == [] && EveryStep(run)
  {
    if n == 0 {
      run, h := [], EMPTY_HISTORY;
    } else {
      hide Timely, Run, EveryStep, Samples, Covered;
      var before, at := QuietSteps(n - 1, max);
      EveryStepTimely(before);
      var m, after := QuietStep(before, at, max, 3600 + 10 * n, Covered(n - 1));
      OneMoreStep(before, m);
      run, h := before + [m], after;
    }
  }

  lemma NoTableNoIds(ds: seq<DimFrame>)
    ensures IdsIn(ds, []) ==> ds == []
  {
    if ds != [] { assert !(ds[0].id < 0); }
  }

  /** A history without dimensions is loaded as its own compaction. */
  lemma EmptyTableLoads(h: History, max: nat)
    requires h.table == []
    ensures var l := Loaded(Save(h), max);
      l.table == [] && IdsKnown(l) && Compacted(l, l)
  {
    LoadedIdsKnown(Save(h), max);
    var l := Loaded(Save(h), max);
    forall f | f in AllFrames(l)
      ensures f.dims == []
    {
      NoTableNoIds(f.dims);
    }
  }

  /** Every step of an hour sampled, the last only in part because the process ended;
      then a restart, and the rest of that step sampled. */
  ghost predicate StoppedInTheLastStep(run: seq<Moment>) {
    && |run| == 362 && EveryStep(run[..360]) && run[360].Restart?
    && Samples(run[361], 7200, 5) && run[361].s.start == 7190
  }

  lemma StoppedRun(max: nat) returns (run: seq<Moment>, h: History)
    ensures Run(run, h, max) && StoppedInTheLastStep(run) && Timely(run)
    ensures SamplesOf(run) == SamplesOf(run[..360]) + [run[361].s]
  {
    hide Compacted, IdsKnown, Loaded;
    var hour, saved := QuietSteps(360, max);
    EmptyTableLoads(saved, max);
    var loaded := Loaded(Save(saved), max);
    var back := hour + [Restart(saved)];
    assert back[..360] == hour;
    SamplesOfSamplings(hour);
    assert SamplesOf(back) == SamplesOf(hour);
    SteppedIsInTime(hour);
    var m, after := QuietStep(back, loaded, max, 7200, 5);
    run, h := back + [m], after;
    assert run[..360] == hour && run[..361] == back;
    StoppedInTime(run);
  }

  lemma SteppedIsInTime(hour: seq<Moment>)
    requires EveryStep(hour)
    ensures InTime(SamplesOf(hour))
  {
    SamplesOfSamplings(hour);
    var samples := SamplesOf(hour);
    forall i | 0 <= i < |samples|
      ensures Mod(samples[i].start, SAMPLE_STEP) == 0 && samples[i].start >= StepOf(2)
    {
      TenTimes(i);
    }
  }

  lemma TenTimes(i: nat)
    ensures (3600 + 10 * i) % 10 == 0
  {
  }

  lemma StoppedInTime(run: seq<Moment>)
    requires StoppedInTheLastStep(run) && SamplesOf(run) == SamplesOf(run[..360]) + [run[361].s]
    ensures InTime(SamplesOf(run)) && NotAhead(SamplesOf(run), 7200)
    ensures |SamplesOf(run)| == 361 && SamplesOf(run)[0].start == 3600
    ensures forall i :: 1 <= i < 361 ==> 3610 <= SamplesOf(run)[i].start < 7200
  {
    SteppedIsInTime(run[..360]);
    SamplesOfSamplings(run[..360]);
  }

  /** Point 0 of a report that has lost the only sample of its interval is a gap, and so
      not the sum of that sample. */
  lemma LostPoint(r: Report, seen: seq<Sample>, samples: seq<Sample>, table: seq<string>, end: int)
    requires DirectSum(r, seen, table, end) && |r.points| > 0
    requires var lo, hi := SlotLo(r.start, 0, r.step), SlotLo(r.start, 1, r.step);
      Within(seen, lo, hi) == [] && Within(samples, lo, hi) != []
    ensures r.points[0] == Gap && !DirectSum(r, samples, table, end)
  {
    hide Within, Sum, SameDims, TotalsSum, DimsSum;
    TimesIsProduct(1, r.step);
    assert SlotLo(r.start, 0, r.step) == r.start + 0 * r.step && SlotLo(r.start, 1, r.step) == r.start + (0 + 1) * r.step;
    assert r.points[0] == Gap;
    assert !PointSums(r.points[0], Within(samples, r.start + 0 * r.step, r.start + (0 + 1) * r.step), r.step);
  }

  lemma FirstIsLost(samples: seq<Sample>)
    requires |samples| == 361 && samples[0].start == 3600
    requires forall i :: 1 <= i < 361 ==> 3610 <= samples[i].start < 7200
    ensures Within(Seen(samples, 0), 3600, 3610) == [] && Within(samples, 3600, 3610) != []
    ensures |Within(samples, 3600, 7201)| == 361 && Within(samples, 3600, 7200) != []
  {
    hide Within;
    var seen := Seen(samples, 0);
    forall s | s in seen
      ensures !(3600 <= s.start < 3610)
    {
      var i :| 0 <= i < |seen| && seen[i] == s;
      assert s == samples[i + 1];
    }
    WithinAllOrNone(seen, 3600, 3610);
    assert samples[0] in samples;
    WithinLength(samples, 3600, 3610);
    forall s | s in samples
      ensures 3600 <= s.start < 7200
    {
      var i :| 0 <= i < |samples| && samples[i] == s;
    }
    WithinAllOrNone(samples, 3600, 7200);
    WithinAllOrNone(samples, 3600, 7201);
  }

  /** The input for which a report is not the direct sum: after such a run the newest
      hour's report has a gap for its first step, which was sampled. */
  lemma RestartWithinAStep(max: nat)
    ensures RangeOf("1h") == Some(Range(0, 360)) && WindowEnd(7200, StepOf(0)) == 7200
    ensures exists run, h ::
      && Run(run, h, max) && StoppedInTheLastStep(run)
      && Timely(run) && Rising(SamplesOf(run)) && NotAhead(SamplesOf(run), 7200)
      && !WindowKept(SamplesOf(run), Range(0, 360), 7200)
      && FramesShaped(FramesRead(h, 0))
      && BuildReport(h, Range(0, 360), 7200).points[0] == Gap
      && !DirectSum(BuildReport(h, Range(0, 360), 7200), SamplesOf(run), h.table, 7200)
  {
    hide Run, StoppedInTheLastStep, Timely, NotAhead, Rising, Within, Seen, BuildReport, FramesRead, FramesShaped, DirectSum, Spans;
    var run, h := StoppedRun(max);
    var samples := SamplesOf(run);
    StoppedInTime(run);
    FirstIsLost(samples);
    ReportAfterAnyRun(run, h, max, "1h", 7200);
    var r := BuildReport(h, Range(0, 360), 7200);
    ReportStarts(h, Range(0, 360), 7200);
    LostPoint(r, Seen(samples, 0), samples, h.table, 7200);
    assert !WindowKept(samples, Range(0, 360), 7200);
  }
}
