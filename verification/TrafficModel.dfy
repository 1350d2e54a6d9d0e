/** The traffic history on values: levels, the dimension table, one sampling, and
    how a history represents the samples it was built from. */
module TrafficModel {
  import opened Basics
  import opened TrafficFrames
  import opened TrafficRollup
  import opened TrafficWindows

  /** A ring by age, its newest frame last, and the frame still open to merging. */
  datatype Level = Level(frames: seq<Frame>, pending: Option<Frame>)

  /** A listener's, host's or country's cumulative counters; `active` is a gauge. */
  datatype Reading = Reading(bytesIn: nat, bytesOut: nat, count: nat, errs: nat, active: int)

  const ZERO_READING := Reading(0, 0, 0, 0, 0)

  /** What one sampling reads: the engine's own counters and a reading per dimension. */
  datatype Snapshot = Snapshot(requests: nat, status: Vec, proto: Vec, blocked: Vec, latency: Vec, dims: map<string, Reading>)
  {
    predicate Shaped() {
      |status| == STATUS && |proto| == PROTOS && |blocked| == REASONS && |latency| == BUCKETS
    }
  }

  const ZERO_SNAPSHOT := Snapshot(0, Zeros(STATUS), Zeros(PROTOS), Zeros(REASONS), Zeros(BUCKETS), map[])

  datatype History = History(table: seq<string>, ids: map<string, nat>, prev: Snapshot, l0: Level, l1: Level, l2: Level)

  const EMPTY_LEVEL := Level([], None)
  const EMPTY_HISTORY := History([], map[], ZERO_SNAPSHOT, EMPTY_LEVEL, EMPTY_LEVEL, EMPTY_LEVEL)

  // ---- levels ----

  function PushFrame(l: Level, cap: nat, f: Frame): Level {
    l.(frames := Last(l.frames + [f], cap))
  }

  function NewFrame(start: int): Frame { Frame(start, ZERO_TOTALS, []) }

  predicate ShapedPending(l: Level) { l.pending.Some? ==> l.pending.value.totals.Shaped() }

  /** A level after a finer frame: merged into the open frame, or that one pushed and
      given as the second component. */
  function AddFrame(l: Level, step: Step, cap: nat, f: Frame): (r: (Level, Option<Frame>))
    requires f.totals.Shaped() && ShapedPending(l) && f.start >= 0
  {
    var start := Floor(f.start, step);
    if l.pending.Some? && l.pending.value.start != start then
      (PushFrame(l, cap, l.pending.value).(pending := Some(Merged(NewFrame(start), f))), Some(l.pending.value))
    else
      (l.(pending := Some(Merged(if l.pending.Some? then l.pending.value else NewFrame(start), f))), None)
  }

  // ---- what one sampling adds ----

  function Delta(cur: nat, prev: nat): nat {
    if cur < prev then cur else cur - prev
  }

  function DeltaVec(cur: Vec, prev: Vec): Vec
    requires |cur| == |prev|
  {
    seq(|cur|, i requires 0 <= i < |cur| => Delta(cur[i], prev[i]))
  }

  function ReadingOf(dims: map<string, Reading>, k: string): Reading {
    if k in dims then dims[k] else ZERO_READING
  }

  function DeltaDim(cur: Reading, was: Reading): DimCounts {
    DimCounts(Delta(cur.bytesIn, was.bytesIn), Delta(cur.bytesOut, was.bytesOut), Delta(cur.count, was.count),
              Delta(cur.errs, was.errs), if cur.active > 0 then cur.active else 0)
  }

  const PORT_PREFIX := "port:"

  predicate IsPort(k: string) { PORT_PREFIX <= k }

  /** The frame of a sampling while its dimensions are gathered, with the table. */
  datatype Gather = Gather(totals: Totals, dims: seq<DimFrame>, table: seq<string>, ids: map<string, nat>)

  function AddPort(t: Totals, d: DimCounts): Totals {
    t.(bytesIn := t.bytesIn + d.bytesIn, bytesOut := t.bytesOut + d.bytesOut, conns := t.conns + d.count, active := t.active + d.active)
  }

  /** One round of the loop over the dimension keys. */
  function GatherKey(g: Gather, k: string, d: DimCounts, max: nat): Gather {
    var g1 := if IsPort(k) then g.(totals := AddPort(g.totals, d)) else g;
    if d == ZERO_DIM || (|g1.table| >= max && k !in g1.ids) then g1
    else if k in g1.ids then g1.(dims := g1.dims + [DimFrame(g1.ids[k], d)])
    else
      var id := |g1.table|;
      g1.(dims := g1.dims + [DimFrame(id, d)], table := g1.table + [k], ids := g1.ids[k := id])
  }

  function KeyDelta(cur: Snapshot, prev: Snapshot, k: string): DimCounts {
    DeltaDim(ReadingOf(cur.dims, k), ReadingOf(prev.dims, k))
  }

  function GatherKeys(g: Gather, keys: seq<string>, cur: Snapshot, prev: Snapshot, max: nat): Gather {
    if |keys| == 0 then g
    else
      var k := keys[|keys| - 1];
      GatherKey(GatherKeys(g, keys[..|keys| - 1], cur, prev, max), k, KeyDelta(cur, prev, k), max)
  }

  /** The counters that are not gathered from the dimensions. */
  function DeltaTotals(cur: Snapshot, prev: Snapshot, secs: nat): Totals
    requires cur.Shaped() && prev.Shaped()
  {
    ZERO_TOTALS.(secs := secs, requests := Delta(cur.requests, prev.requests),
      status := DeltaVec(cur.status, prev.status), proto := DeltaVec(cur.proto, prev.proto),
      blocked := DeltaVec(cur.blocked, prev.blocked), latency := DeltaVec(cur.latency, prev.latency))
  }

  /** The counters of one reading. `keys` lists the dimension keys in the order
      they are visited (the source sorts them), `end` is the end of the interval. */
  datatype Input = Input(cur: Snapshot, keys: seq<string>, end: nat, secs: nat)

  predicate WellRead(inp: Input) {
    && inp.cur.Shaped()
    && NoRepeats(inp.keys)
    && (forall k :: k in inp.keys ==> k in inp.cur.dims)
    && (forall k :: k in inp.cur.dims ==> k in inp.keys)
    && inp.end >= SAMPLE_STEP
  }

  function Diff(h: History, inp: Input, max: nat): Gather
    requires h.prev.Shaped() && inp.cur.Shaped()
  {
    GatherKeys(Gather(DeltaTotals(inp.cur, h.prev, inp.secs), [], h.table, h.ids), inp.keys, inp.cur, h.prev, max)
  }

  function RollUp(l1: Level, l2: Level, f: Frame): (r: (Level, Level))
    requires f.totals.Shaped() && ShapedPending(l1) && ShapedPending(l2) && f.start >= 0
    requires l1.pending.Some? ==> l1.pending.value.start >= 0
  {
    var (l1', done) := AddFrame(l1, StepOf(1), CapOf(1), f);
    (l1', if done.Some? then AddFrame(l2, StepOf(2), CapOf(2), done.value).0 else l2)
  }

  /** sample, after the table was compacted if it had to be. */
  function Record(h: History, inp: Input, max: nat): History
    requires h.prev.Shaped() && WellRead(inp)
    requires ShapedPending(h.l1) && ShapedPending(h.l2)
    requires h.l1.pending.Some? ==> h.l1.pending.value.start >= 0
  {
    var g := Diff(h, inp, max);
    ShapeKept(h, inp, max);
    var f := Frame(inp.end - SAMPLE_STEP, g.totals, g.dims);
    var (l1, l2) := RollUp(h.l1, h.l2, f);
    History(g.table, g.ids, inp.cur, PushFrame(h.l0, CapOf(0), f), l1, l2)
  }

  lemma ShapeKept(h: History, inp: Input, max: nat)
    requires h.prev.Shaped() && inp.cur.Shaped()
    ensures Diff(h, inp, max).totals.Shaped()
  {
    GatherShape(Gather(DeltaTotals(inp.cur, h.prev, inp.secs), [], h.table, h.ids), inp.keys, inp.cur, h.prev, max);
  }

  lemma {:induction false} GatherShape(g: Gather, keys: seq<string>, cur: Snapshot, prev: Snapshot, max: nat)
    requires g.totals.Shaped()
    ensures GatherKeys(g, keys, cur, prev, max).totals.Shaped()
  {
    if |keys| > 0 { GatherShape(g, keys[..|keys| - 1], cur, prev, max); }
  }

  // ---- the dimension table ----

  /** Keys are listed once, and `ids` is the inverse of the table. */
  ghost predicate TableOk(table: seq<string>, ids: map<string, nat>) {
    && NoRepeats(table)
    && (forall k :: k in ids ==> ids[k] < |table| && table[ids[k]] == k)
    && (forall i :: 0 <= i < |table| ==> table[i] in ids)
  }

  function Unknown(ids: map<string, nat>, cur: Snapshot): nat {
    |set k | k in cur.dims && k !in ids|
  }

  predicate Overflows(h: History, cur: Snapshot, max: nat) {
    var unknown := Unknown(h.ids, cur);
    unknown > 0 && |h.table| + unknown > max
  }

  /** Every frame of the history, level by level. */
  function Pending(l: Level): seq<Frame> { if l.pending.Some? then [l.pending.value] else [] }

  function LevelFrames(l: Level): seq<Frame> { l.frames + Pending(l) }

  function AllFrames(h: History): seq<Frame> {
    LevelFrames(h.l0) + LevelFrames(h.l1) + LevelFrames(h.l2)
  }

  ghost predicate IdsKnown(h: History) {
    forall f :: f in AllFrames(h) ==> IdsIn(f.dims, h.table)
  }

  /** A frame renumbered: all its counters are as they were, key by key. */
  ghost predicate SameFrame(f: Frame, table: seq<string>, f': Frame, table': seq<string>)
    requires IdsIn(f.dims, table)
  {
    f'.start == f.start && IdsIn(f'.dims, table') && LoadOf(f', table') == LoadOf(f, table)
  }

  ghost predicate SameFrames(fs: seq<Frame>, table: seq<string>, fs': seq<Frame>, table': seq<string>)
    requires forall f :: f in fs ==> IdsIn(f.dims, table)
  {
    |fs'| == |fs| && forall i :: 0 <= i < |fs| ==> SameFrame(fs[i], table, fs'[i], table')
  }

  ghost predicate SameLevel(l: Level, table: seq<string>, l': Level, table': seq<string>)
    requires forall f :: f in LevelFrames(l) ==> IdsIn(f.dims, table)
  {
    && SameFrames(l.frames, table, l'.frames, table')
    && (l.pending.Some? <==> l'.pending.Some?)
    && SameFrames(Pending(l), table, Pending(l'), table')
  }

  ghost predicate Used(h: History, id: nat) {
    exists f, d :: f in AllFrames(h) && d in f.dims && d.id == id
  }

  /** Every frame lists a dimension once. */
  ghost predicate Lean(h: History) {
    forall f :: f in AllFrames(h) ==> DistinctIds(f.dims)
  }

  /** What compactDims guarantees: no frame changes its meaning, and the table is
      left with exactly the keys that are in use, each once. */
  ghost predicate Compacted(h: History, h': History)
    requires IdsKnown(h)
  {
    && h'.prev == h.prev
    && SameLevel(h.l0, h.table, h'.l0, h'.table)
    && SameLevel(h.l1, h.table, h'.l1, h'.table)
    && SameLevel(h.l2, h.table, h'.l2, h'.table)
    && TableOk(h'.table, h'.ids)
    && |h'.table| <= |h.table|
    && (forall id :: 0 <= id < |h'.table| ==> Used(h', id))
    && Lean(h')
  }

  // ---- which samples a history stands for ----

  ghost predicate AllShaped(samples: seq<Sample>) {
    forall s :: s in samples ==> s.load.totals.Shaped()
  }

  /** The sum of samples: counters added, open connections by their maximum. */
  ghost function Sum(samples: seq<Sample>): (r: Load)
    requires AllShaped(samples)
    ensures r.totals.Shaped()
  {
    if |samples| == 0 then ZERO_LOAD
    else Combine(Sum(samples[..|samples| - 1]), samples[|samples| - 1].load)
  }

  lemma {:induction false} SumConcat(a: seq<Sample>, b: seq<Sample>)
    requires AllShaped(a) && AllShaped(b)
    ensures AllShaped(a + b) && Sum(a + b) == Combine(Sum(a), Sum(b))
  {
    if |b| == 0 {
      assert a + b == a;
      CombineLaws(Sum(a), ZERO_LOAD, ZERO_LOAD);
    } else {
      var n := |b|;
      assert (a + b)[..|a + b| - 1] == a + b[..n - 1];
      SumConcat(a, b[..n - 1]);
      CombineLaws(Sum(a), Sum(b[..n - 1]), b[n - 1].load);
    }
  }

  lemma SumOne(s: Sample)
    requires s.load.totals.Shaped()
    ensures Sum([s]) == s.load
  {
    assert [s][..0] == [];
    CombineLaws(s.load, ZERO_LOAD, ZERO_LOAD);
    assert Sum([s]) == Combine(Sum([s][..0]), s.load);
  }

  ghost predicate Reps(f: Frame, g: Group, table: seq<string>) {
    && f.start == g.start && f.totals.Shaped() && IdsIn(f.dims, table)
    && AllShaped(g.parts) && LoadOf(f, table) == Sum(g.parts)
  }

  ghost predicate RepsAll(fs: seq<Frame>, gs: seq<Group>, table: seq<string>) {
    |fs| == |gs| && forall i :: 0 <= i < |fs| ==> Reps(fs[i], gs[i], table)
  }

  ghost predicate RepsLevel(l: Level, pushed: seq<Group>, open: Option<Group>, cap: nat, table: seq<string>) {
    && RepsAll(l.frames, Last(pushed, cap), table)
    && (l.pending.Some? <==> open.Some?)
    && (open.Some? ==> Reps(l.pending.value, open.value, table))
  }

  ghost predicate Represents(h: History, e: Rollup) {
    && RepsLevel(h.l0, e.p0, None, CapOf(0), h.table)
    && RepsLevel(h.l1, e.p1, e.open1, CapOf(1), h.table)
    && RepsLevel(h.l2, e.p2, e.open2, CapOf(2), h.table)
  }

  lemma MergedReps(f1: Frame, g1: Group, f2: Frame, g2: Group, table: seq<string>)
    requires Reps(f1, g1, table) && Reps(f2, g2, table)
    ensures Reps(Merged(f1, f2), Group(g1.start, g1.parts + g2.parts), table)
  {
    MergeAddsLoads(f1, f2, table);
    SumConcat(g1.parts, g2.parts);
  }

  lemma NewFrameReps(start: nat, f: Frame, g: Group, table: seq<string>)
    requires Reps(f, g, table)
    ensures Reps(Merged(NewFrame(start), f), Group(start, g.parts), table)
  {
    assert Reps(NewFrame(start), Group(start, []), table);
    MergedReps(NewFrame(start), Group(start, []), f, g, table);
    assert [] + g.parts == g.parts;
  }

  lemma PushReps(fs: seq<Frame>, pushed: seq<Group>, cap: nat, f: Frame, g: Group, table: seq<string>)
    requires cap > 0 && RepsAll(fs, Last(pushed, cap), table) && Reps(f, g, table)
    ensures RepsAll(Last(fs + [f], cap), Last(pushed + [g], cap), table)
  {
    hide Reps;
    var fs', gs' := Last(fs + [f], cap), Last(pushed + [g], cap);
    forall i | 0 <= i < |fs'|
      ensures Reps(fs'[i], gs'[i], table)
    {
      if i < |fs'| - 1 {
        var d := |fs + [f]| - |fs'|;
        assert fs'[i] == fs[i + d];
        assert gs'[i] == Last(pushed, cap)[i + d];
      }
    }
  }

  /** Adding a frame to a level holds its group. */
  lemma AddReps(l: Level, pushed: seq<Group>, open: Option<Group>, step: Step, cap: nat, f: Frame, g: Group, table: seq<string>)
    requires cap > 0 && RepsLevel(l, pushed, open, cap, table) && Reps(f, g, table)
    ensures var (l', done) := AddFrame(l, step, cap, f);
            var (doneG, heldG) := Hold(open, step, g);
            && RepsLevel(l', pushed + Held(doneG), Some(heldG), cap, table)
            && (done.Some? <==> doneG.Some?)
            && (done.Some? ==> Reps(done.value, doneG.value, table))
  {
    var start := Floor(g.start, step);
    NewFrameReps(start, f, g, table);
    if open.Some? {
      if open.value.start != start {
        PushReps(l.frames, pushed, cap, l.pending.value, open.value, table);
      } else {
        MergedReps(l.pending.value, open.value, f, g, table);
        assert pushed + Held(None) == pushed;
      }
    } else {
      assert pushed + Held(None) == pushed;
    }
  }

  lemma GrownReps(f: Frame, g: Group, table: seq<string>, grown: seq<string>)
    requires Reps(f, g, table) && table <= grown
    ensures Reps(f, g, grown)
  {
    ByKeyGrown(f.dims, table, grown);
  }

  lemma GrownRepsAll(fs: seq<Frame>, gs: seq<Group>, table: seq<string>, grown: seq<string>)
    requires RepsAll(fs, gs, table) && table <= grown
    ensures RepsAll(fs, gs, grown)
  {
    forall i | 0 <= i < |fs|
      ensures Reps(fs[i], gs[i], grown)
    {
      GrownReps(fs[i], gs[i], table, grown);
    }
  }

  lemma GrownRepsLevel(l: Level, pushed: seq<Group>, open: Option<Group>, cap: nat, table: seq<string>, grown: seq<string>)
    requires RepsLevel(l, pushed, open, cap, table) && table <= grown
    ensures RepsLevel(l, pushed, open, cap, grown)
  {
    GrownRepsAll(l.frames, Last(pushed, cap), table, grown);
    if open.Some? { GrownReps(l.pending.value, open.value, table, grown); }
  }

  /** Renumbering the dimensions does not change what a level stands for. */
  lemma CompactedRepsLevel(l: Level, table: seq<string>, l': Level, table': seq<string>, pushed: seq<Group>, open: Option<Group>, cap: nat)
    requires forall f :: f in LevelFrames(l) ==> IdsIn(f.dims, table)
    requires RepsLevel(l, pushed, open, cap, table) && SameLevel(l, table, l', table')
    ensures RepsLevel(l', pushed, open, cap, table')
  {
    var gs := Last(pushed, cap);
    forall i | 0 <= i < |l'.frames|
      ensures Reps(l'.frames[i], gs[i], table')
    {
      assert SameFrame(l.frames[i], table, l'.frames[i], table');
    }
    if open.Some? {
      assert SameFrame(Pending(l)[0], table, Pending(l')[0], table');
    }
  }
}
