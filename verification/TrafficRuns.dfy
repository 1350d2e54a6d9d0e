/** Runs of the sampler and restarts of the process: what a history stands for after
    any number of them, and that the counters' growth is all in it. */
module TrafficRuns {
  import opened Basics
  import opened TrafficFrames
  import opened TrafficRollup
  import opened TrafficWindows
  import opened TrafficModel
  import opened TrafficSampling
  import opened TrafficRestart

  /** One sampling (the history before it, the history after compaction, the reading
      and what the sampling added), or a save, the end of the process and a load. A
      crash keeps what was saved last: the run up to that save is the one that goes on. */
  datatype Moment =
    | Sampling(before: History, mid: History, inp: Input, s: Sample)
    | Restart(before: History)

  ghost predicate Reaches(m: Moment, h: History, max: nat) {
    match m
    case Sampling(before, mid, inp, s) => SampleStep(before, mid, inp, s, h, max)
    case Restart(before) => IdsKnown(Loaded(Save(before), max)) && Compacted(Loaded(Save(before), max), h)
  }

  /** A run from the empty history that ends in h. */
  ghost predicate Run(run: seq<Moment>, h: History, max: nat) {
    if |run| == 0 then h == EMPTY_HISTORY
    else Run(run[..|run| - 1], run[|run| - 1].before, max) && Reaches(run[|run| - 1], h, max)
  }

  ghost function SamplesOf(run: seq<Moment>): seq<Sample> {
    if |run| == 0 then []
    else
      var m := run[|run| - 1];
      SamplesOf(run[..|run| - 1]) + if m.Sampling? then [m.s] else []
  }

  ghost predicate Restarted(run: seq<Moment>) { exists m :: m in run && m.Restart? }

  /** A run with restarts samples by a clock that does not go back. */
  ghost predicate Timely(run: seq<Moment>) { Restarted(run) ==> InTime(SamplesOf(run)) }

  lemma TimelyBefore(run: seq<Moment>)
    requires Timely(run) && |run| > 0
    ensures Timely(run[..|run| - 1])
    ensures run[|run| - 1].Restart? ==> InTime(SamplesOf(run[..|run| - 1]))
  {
    var front, m := run[..|run| - 1], run[|run| - 1];
    assert run == front + [m];
    var all, samples := SamplesOf(run), SamplesOf(front);
    assert forall i :: 0 <= i < |samples| ==> all[i] == samples[i];
  }

  lemma EmptyTracks(max: nat)
    ensures Tracks(EMPTY_HISTORY, [], max) && Lean(EMPTY_HISTORY)
  {
  }

  lemma StepTracks(m: Moment, h: History, max: nat, samples: seq<Sample>)
    requires Tracks(m.before, samples, max) && Lean(m.before) && Reaches(m, h, max)
    requires m.Restart? ==> InTime(samples)
    ensures Tracks(h, samples + (if m.Sampling? then [m.s] else []), max) && Lean(h)
  {
    hide Tracks, Lean, SampleStep, Compacted, IdsKnown, InTime, TableOk, Loaded;
    match m
    case Sampling(before, mid, inp, s) =>
      SampleTracks(before, mid, inp, s, h, max, samples);
      MidInOrder(before, mid, inp, s, h, max, samples);
      StepLean(before, mid, inp, s, h, max);
    case Restart(before) =>
      RestartKeepsHistory(before, max, samples, h);
      assert samples + [] == samples;
  }

  /** After any run the history stands for exactly the samples taken, whatever was
      renumbered, saved and loaded on the way, and the table never outgrows its bound. */
  lemma {:induction false} RunTracks(run: seq<Moment>, h: History, max: nat)
    requires Run(run, h, max) && Timely(run)
    ensures Tracks(h, SamplesOf(run), max) && Lean(h)
  {
    hide Tracks, Lean, Reaches, Timely, InTime;
    if |run| == 0 {
      EmptyTracks(max);
    } else {
      var n := |run| - 1;
      TimelyBefore(run);
      RunTracks(run[..n], run[n].before, max);
      StepTracks(run[n], h, max, SamplesOf(run[..n]));
    }
  }

  /** A run can always go on with any reading, given a compaction of its history for
      where the table would overflow (TrafficStats.Compact computes one). */
  lemma RunGoesOn(run: seq<Moment>, h: History, max: nat, inp: Input, compact: History)
    requires Run(run, h, max) && Timely(run) && WellRead(inp)
    requires IdsKnown(h) && Compacted(h, compact)
    ensures exists m: Moment, h': History :: m.Sampling? && m.inp == inp && Run(run + [m], h', max)
  {
    hide Compacted, Tracks, Overflows, SampleStep, WellRead;
    RunTracks(run, h, max);
    var mid := if Overflows(h, inp.cur, max) then compact else h;
    StepEnabled(h, mid, inp, max, SamplesOf(run));
    var m := Sampling(h, mid, inp, SampleOf(mid, inp, max));
    assert (run + [m])[..|run|] == run;
    assert Run(run + [m], Record(mid, inp, max), max);
  }

  // ---- growth ----

  /** What counters restarted at zero took with them: the readings just before a drop. */
  ghost function Lost(readings: seq<nat>): nat {
    if |readings| < 2 then 0
    else
      var n := |readings|;
      Lost(readings[..n - 1]) + (if readings[n - 1] < readings[n - 2] then readings[n - 2] else 0)
  }

  /** The events behind a counter's readings: its newest one, and what each drop took. */
  ghost function Growth(readings: seq<nat>): nat {
    if |readings| == 0 then 0 else readings[|readings| - 1] + Lost(readings)
  }

  ghost function Newest(readings: seq<nat>): nat {
    if |readings| == 0 then 0 else readings[|readings| - 1]
  }

  lemma GrowthStep(readings: seq<nat>, next: nat)
    ensures Growth(readings + [next]) == Growth(readings) + Delta(next, Newest(readings))
    ensures Newest(readings + [next]) == next
  {
    if |readings| > 0 { assert (readings + [next])[..|readings|] == readings; }
  }

  /** A cumulative counter: one of the engine's own, or a dimension's. */
  datatype Counter =
    | Requests | Status(i: nat) | Proto(i: nat) | Blocked(i: nat) | Latency(i: nat)
    | DimIn(k: string) | DimOut(k: string) | DimCount(k: string) | DimErrs(k: string)
  {
    predicate Valid() {
      match this
      case Status(i) => i < STATUS
      case Proto(i) => i < PROTOS
      case Blocked(i) => i < REASONS
      case Latency(i) => i < BUCKETS
      case _ => true
    }

    predicate IsDim() { DimIn? || DimOut? || DimCount? || DimErrs? }
  }

  function Read(c: Counter, s: Snapshot): nat
    requires c.Valid() && s.Shaped()
  {
    match c
    case Requests => s.requests
    case Status(i) => s.status[i]
    case Proto(i) => s.proto[i]
    case Blocked(i) => s.blocked[i]
    case Latency(i) => s.latency[i]
    case DimIn(k) => ReadingOf(s.dims, k).bytesIn
    case DimOut(k) => ReadingOf(s.dims, k).bytesOut
    case DimCount(k) => ReadingOf(s.dims, k).count
    case DimErrs(k) => ReadingOf(s.dims, k).errs
  }

  function DimOf(l: Load, k: string): DimCounts {
    if k in l.dims then l.dims[k] else ZERO_DIM
  }

  function Counted(c: Counter, l: Load): nat
    requires c.Valid() && l.totals.Shaped()
  {
    match c
    case Requests => l.totals.requests
    case Status(i) => l.totals.status[i]
    case Proto(i) => l.totals.proto[i]
    case Blocked(i) => l.totals.blocked[i]
    case Latency(i) => l.totals.latency[i]
    case DimIn(k) => DimOf(l, k).bytesIn
    case DimOut(k) => DimOf(l, k).bytesOut
    case DimCount(k) => DimOf(l, k).count
    case DimErrs(k) => DimOf(l, k).errs
  }

  lemma CountedAdds(c: Counter, a: Load, b: Load)
    requires c.Valid() && a.totals.Shaped() && b.totals.Shaped()
    ensures Counted(c, Combine(a, b)) == Counted(c, a) + Counted(c, b)
  {
  }

  /** The dimension of a counter had an id, or there was room for one. */
  ghost predicate Retained(c: Counter, h: History, max: nat) {
    c.IsDim() ==> |h.table| < max || c.k in h.ids
  }

  /** One sample holds exactly what each retained counter grew by. */
  lemma SampleCounts(mid: History, inp: Input, max: nat, c: Counter)
    requires Ready(mid) && WellRead(inp) && TableOk(mid.table, mid.ids) && |mid.table| <= max && c.Valid()
    ensures GatherOk(Diff(mid, inp, max), max) && SampleOf(mid, inp, max).load.totals.Shaped()
    ensures Retained(c, Record(mid, inp, max), max) ==>
              Counted(c, SampleOf(mid, inp, max).load) == Delta(Read(c, inp.cur), Read(c, mid.prev))
  {
    NewFrameRepsSample(mid, inp, max);
    hide IdsKnown, TableOk;
    if c.IsDim() {
      SampleCountsDim(mid, inp, max, c.k);
    } else {
      GatherPorts(Gather(DeltaTotals(inp.cur, mid.prev, inp.secs), [], mid.table, mid.ids), inp.keys, inp.cur, mid.prev, max);
    }
  }

  lemma SampleCountsDim(mid: History, inp: Input, max: nat, k: string)
    requires Ready(mid) && WellRead(inp) && TableOk(mid.table, mid.ids) && |mid.table| <= max
    ensures GatherOk(Diff(mid, inp, max), max) && SampleOf(mid, inp, max).load.totals.Shaped()
    ensures var g := Diff(mid, inp, max);
            |g.table| < max || k in g.ids ==>
              var d := DimOf(SampleOf(mid, inp, max).load, k);
              var e := KeyDelta(inp.cur, mid.prev, k);
              d.bytesIn == e.bytesIn && d.bytesOut == e.bytesOut && d.count == e.count && d.errs == e.errs
  {
    NewFrameRepsSample(mid, inp, max);
    GatherMeaning(Gather(DeltaTotals(inp.cur, mid.prev, inp.secs), [], mid.table, mid.ids), inp.keys, inp.cur, mid.prev, max);
    if k !in inp.keys { assert k !in inp.cur.dims; }
  }

  ghost predicate ShapedRun(run: seq<Moment>) {
    forall m :: m in run && m.Sampling? ==> m.inp.cur.Shaped()
  }

  /** What a counter read at a moment: a new process begins at zero. */
  ghost function ReadingAt(c: Counter, m: Moment): nat
    requires c.Valid() && (m.Sampling? ==> m.inp.cur.Shaped())
  {
    if m.Sampling? then Read(c, m.inp.cur) else 0
  }

  ghost function Readings(c: Counter, run: seq<Moment>): seq<nat>
    requires c.Valid() && ShapedRun(run)
  {
    if |run| == 0 then [] else Readings(c, run[..|run| - 1]) + [ReadingAt(c, run[|run| - 1])]
  }

  /** The counter's dimension, if it is one, was never left out for want of room. */
  ghost predicate AlwaysRetained(c: Counter, run: seq<Moment>, h: History, max: nat) {
    |run| > 0 ==>
      && (run[|run| - 1].Sampling? ==> Retained(c, h, max))
      && AlwaysRetained(c, run[..|run| - 1], run[|run| - 1].before, max)
  }

  /** The history holds the newest reading of every counter. */
  lemma {:induction false} HoldsNewest(run: seq<Moment>, h: History, max: nat)
    requires Run(run, h, max)
    ensures ShapedRun(run) && h.prev.Shaped()
    ensures forall c: Counter :: c.Valid() ==> Newest(Readings(c, run)) == Read(c, h.prev)
  {
    hide Reaches;
    if |run| > 0 {
      var n := |run| - 1;
      assert run == run[..n] + [run[n]];
      HoldsNewest(run[..n], run[n].before, max);
      StepReading(run[n], h, max);
    }
  }

  lemma StepReading(m: Moment, h: History, max: nat)
    requires Reaches(m, h, max)
    ensures h.prev.Shaped() && (m.Sampling? ==> m.inp.cur.Shaped())
    ensures forall c: Counter :: c.Valid() ==> ReadingAt(c, m) == Read(c, h.prev)
  {
    hide SameLevel, IdsKnown;
    if m.Sampling? { StepReads(m.before, m.mid, m.inp, m.s, h, max); }
  }

  lemma AllShapedOf(h: History, samples: seq<Sample>, max: nat)
    requires Tracks(h, samples, max)
    ensures AllShaped(samples)
  {
  }

  /** Conservation: the samples of a run together hold exactly what every counter
      grew by, restarts included, for every counter of the engine and every retained
      dimension. */
  lemma {:induction false} SamplesHoldAllGrowth(run: seq<Moment>, h: History, max: nat, c: Counter)
    requires Run(run, h, max) && Timely(run) && c.Valid() && AlwaysRetained(c, run, h, max)
    ensures AllShaped(SamplesOf(run)) && ShapedRun(run)
    ensures Counted(c, Sum(SamplesOf(run))) == Growth(Readings(c, run))
  {
    hide Reaches, Retained, Tracks, Timely, Counted, Read, Combine, Growth, Newest;
    RunTracks(run, h, max);
    AllShapedOf(h, SamplesOf(run), max);
    HoldsNewest(run, h, max);
    if |run| == 0 {
      NothingCounted(c, run);
    } else {
      var n := |run| - 1;
      var m, before := run[n], run[..n];
      TimelyBefore(run);
      SamplesHoldAllGrowth(before, m.before, max, c);
      HoldsNewest(before, m.before, max);
      GrowthStep(Readings(c, before), ReadingAt(c, m));
      if m.Sampling? {
        MomentCounts(before, m, h, max, c);
        CountedAdds(c, Sum(SamplesOf(before)), m.s.load);
        assert SamplesOf(run)[..|SamplesOf(run)| - 1] == SamplesOf(before);
      } else {
        DeltaOfZero(Newest(Readings(c, before)));
        assert SamplesOf(run) == SamplesOf(before);
      }
    }
  }

  lemma DeltaOfZero(was: nat)
    ensures Delta(0, was) == 0
  {
  }

  lemma NothingCounted(c: Counter, run: seq<Moment>)
    requires c.Valid() && run == []
    ensures AllShaped(SamplesOf(run)) && Counted(c, Sum(SamplesOf(run))) == Growth(Readings(c, run))
  {
    assert Sum(SamplesOf(run)) == ZERO_LOAD;
  }

  lemma MomentCounts(before: seq<Moment>, m: Moment, h: History, max: nat, c: Counter)
    requires Run(before, m.before, max) && Timely(before) && m.Sampling? && Reaches(m, h, max)
    requires c.Valid() && Retained(c, h, max)
    ensures m.before.prev.Shaped() && m.inp.cur.Shaped() && m.s.load.totals.Shaped()
    ensures Counted(c, m.s.load) == Delta(Read(c, m.inp.cur), Read(c, m.before.prev))
  {
    hide Timely;
    RunTracks(before, m.before, max);
    MidInOrder(m.before, m.mid, m.inp, m.s, h, max, SamplesOf(before));
    SampleCounts(m.mid, m.inp, max, c);
  }

  // ---- the totals over the listeners ----

  /** The counters of a frame that are summed over the listeners. */
  datatype Gathered = BytesIn | BytesOut | Conns

  function GatheredOf(t: Gathered, totals: Totals): nat {
    match t
    case BytesIn => totals.bytesIn
    case BytesOut => totals.bytesOut
    case Conns => totals.conns
  }

  function OfListener(t: Gathered, k: string): (c: Counter)
    ensures c.Valid()
  {
    match t
    case BytesIn => DimIn(k)
    case BytesOut => DimOut(k)
    case Conns => DimCount(k)
  }

  ghost function SumOver(keys: seq<string>, f: string -> nat): nat {
    if |keys| == 0 then 0 else SumOver(keys[..|keys| - 1], f) + f(keys[|keys| - 1])
  }

  lemma {:induction false} SumOverWithout(keys: seq<string>, f: string -> nat, i: nat)
    requires i < |keys|
    ensures SumOver(keys, f) == SumOver(keys[..i] + keys[i + 1..], f) + f(keys[i])
  {
    var n := |keys| - 1;
    var rest := keys[..i] + keys[i + 1..];
    if i == n {
      assert rest == keys[..n];
    } else {
      SumOverWithout(keys[..n], f, i);
      assert rest[..n - 1] == keys[..n][..i] + keys[..n][i + 1..];
      assert rest[n - 1] == keys[n];
    }
  }

  lemma {:induction false} SumOfZeros(keys: seq<string>, f: string -> nat)
    requires forall k :: k in keys ==> f(k) == 0
    ensures SumOver(keys, f) == 0
  {
    if |keys| > 0 { SumOfZeros(keys[..|keys| - 1], f); }
  }

  lemma WithoutOne(u: seq<string>, i: nat)
    requires NoRepeats(u) && i < |u|
    ensures var rest := u[..i] + u[i + 1..];
            NoRepeats(rest) && forall k :: k in rest <==> k in u && k != u[i]
  {
    var rest := u[..i] + u[i + 1..];
    forall k | k in u && k != u[i]
      ensures k in rest
    {
      var j :| 0 <= j < |u| && u[j] == k;
      assert rest[if j < i then j else j - 1] == k;
    }
  }

  lemma LastApart(keys: seq<string>, f: string -> nat)
    requires NoRepeats(keys) && |keys| > 0
    ensures var front, k := keys[..|keys| - 1], keys[|keys| - 1];
      && NoRepeats(front) && k !in front
      && (forall x :: x in keys <==> x in front || x == k)
      && SumOver(keys, f) == SumOver(front, f) + f(k)
  {
    assert keys == keys[..|keys| - 1] + [keys[|keys| - 1]];
  }

  /** Keys that count nothing may be left out, and the order does not matter. */
  lemma {:induction false} SameSum(keys: seq<string>, u: seq<string>, f: string -> nat)
    requires NoRepeats(keys) && NoRepeats(u)
    requires forall k :: k in keys && k !in u ==> f(k) == 0
    requires forall k :: k in u && k !in keys ==> f(k) == 0
    ensures SumOver(keys, f) == SumOver(u, f)
  {
    hide NoRepeats;
    if |keys| == 0 {
      SumOfZeros(u, f);
    } else {
      hide SumOver;
      var front, k := keys[..|keys| - 1], keys[|keys| - 1];
      LastApart(keys, f);
      if k in u {
        var i :| 0 <= i < |u| && u[i] == k;
        WithoutOne(u, i);
        SumOverWithout(u, f, i);
        SameSum(front, u[..i] + u[i + 1..], f);
      } else {
        assert k in keys;
        SameSum(front, u, f);
      }
    }
  }

  /** What a listener's counter grew by between two readings; other keys count nothing. */
  function ListenerDelta(t: Gathered, cur: Snapshot, prev: Snapshot, k: string): nat {
    if !IsPort(k) then 0
    else
      var d := KeyDelta(cur, prev, k);
      match t case BytesIn => d.bytesIn case BytesOut => d.bytesOut case Conns => d.count
  }

  lemma {:induction false} PortGrowthIsSum(t: Gathered, keys: seq<string>, cur: Snapshot, prev: Snapshot, f: string -> nat)
    requires forall k :: f(k) == ListenerDelta(t, cur, prev, k)
    ensures var p := PortGrowth(keys, cur, prev);
            SumOver(keys, f) == match t case BytesIn => p.bytesIn case BytesOut => p.bytesOut case Conns => p.count
  {
    if |keys| > 0 { PortGrowthIsSum(t, keys[..|keys| - 1], cur, prev, f); }
  }

  /** u lists the listeners a sampling reads, and perhaps others, each once. */
  ghost predicate Listeners(u: seq<string>, m: Moment) {
    && NoRepeats(u) && (forall k :: k in u ==> IsPort(k))
    && (m.Sampling? ==> forall k :: k in m.inp.cur.dims && IsPort(k) ==> k in u)
  }

  /** A sample's total is the sum of what the listeners counted, whether or not their
      dimensions have ids. */
  lemma SampleGathers(t: Gathered, mid: History, inp: Input, max: nat, u: seq<string>, f: string -> nat)
    requires Ready(mid) && WellRead(inp) && TableOk(mid.table, mid.ids) && |mid.table| <= max
    requires NoRepeats(u) && (forall k :: k in u ==> IsPort(k))
    requires forall k :: k in inp.cur.dims && IsPort(k) ==> k in u
    requires forall k :: f(k) == ListenerDelta(t, inp.cur, mid.prev, k)
    ensures GatherOk(Diff(mid, inp, max), max)
    ensures GatheredOf(t, SampleOf(mid, inp, max).load.totals) == SumOver(u, f)
  {
    NewFrameRepsSample(mid, inp, max);
    hide IdsKnown, TableOk, GatherOk;
    GatherPorts(Gather(DeltaTotals(inp.cur, mid.prev, inp.secs), [], mid.table, mid.ids), inp.keys, inp.cur, mid.prev, max);
    PortGrowthIsSum(t, inp.keys, inp.cur, mid.prev, f);
    forall k | k in u && k !in inp.keys
      ensures f(k) == 0
    {
      assert k !in inp.cur.dims;
    }
    SameSum(inp.keys, u, f);
  }

  lemma MomentGathers(t: Gathered, before: seq<Moment>, m: Moment, h: History, max: nat, u: seq<string>, f: string -> nat)
    requires Run(before, m.before, max) && Timely(before) && m.Sampling? && Reaches(m, h, max) && Listeners(u, m)
    requires forall k :: f(k) == ListenerDelta(t, m.inp.cur, m.before.prev, k)
    ensures m.s.load.totals.Shaped() && GatheredOf(t, m.s.load.totals) == SumOver(u, f)
  {
    hide Timely, Tracks;
    RunTracks(before, m.before, max);
    MidInOrder(m.before, m.mid, m.inp, m.s, h, max, SamplesOf(before));
    NewFrameRepsSample(m.mid, m.inp, max);
    SampleGathers(t, m.mid, m.inp, max, u, f);
  }

  lemma GatheredAdds(t: Gathered, a: Load, b: Load)
    requires a.totals.Shaped() && b.totals.Shaped()
    ensures GatheredOf(t, Combine(a, b).totals) == GatheredOf(t, a.totals) + GatheredOf(t, b.totals)
  {
  }

  /** What the listeners of u together counted over the run. */
  ghost function GrowthOver(t: Gathered, u: seq<string>, run: seq<Moment>): nat
    requires ShapedRun(run)
  {
    if |u| == 0 then 0
    else GrowthOver(t, u[..|u| - 1], run) + Growth(Readings(OfListener(t, u[|u| - 1]), run))
  }

  lemma {:induction false} NothingOver(t: Gathered, u: seq<string>, run: seq<Moment>)
    requires run == []
    ensures GrowthOver(t, u, run) == 0
  {
    if |u| > 0 { NothingOver(t, u[..|u| - 1], run); }
  }

  lemma {:induction false} GrowthOverStep(t: Gathered, u: seq<string>, before: seq<Moment>, m: Moment, f: string -> nat)
    requires ShapedRun(before + [m]) && ShapedRun(before)
    requires forall k :: k in u ==>
      f(k) == Delta(ReadingAt(OfListener(t, k), m), Newest(Readings(OfListener(t, k), before)))
    ensures GrowthOver(t, u, before + [m]) == GrowthOver(t, u, before) + SumOver(u, f)
  {
    hide Growth, Newest, ReadingAt;
    assert m in before + [m];
    if |u| > 0 {
      var c := OfListener(t, u[|u| - 1]);
      GrowthOverStep(t, u[..|u| - 1], before, m, f);
      assert (before + [m])[..|before|] == before;
      GrowthStep(Readings(c, before), ReadingAt(c, m));
      assert u[|u| - 1] in u;
    }
  }

  lemma ListenerReads(t: Gathered, k: string, m: Moment, prev: Snapshot)
    requires IsPort(k) && m.Sampling? && m.inp.cur.Shaped() && prev.Shaped()
    ensures ListenerDelta(t, m.inp.cur, prev, k) == Delta(ReadingAt(OfListener(t, k), m), Read(OfListener(t, k), prev))
  {
  }

  /** Conservation of the totals: bytes in, bytes out and connections of the samples of
      a run are together exactly what the listeners counted, restarts included, whether
      or not a listener's dimension was retained. */
  lemma {:induction false} ListenerTotalsHoldAllGrowth(run: seq<Moment>, h: History, max: nat, t: Gathered, u: seq<string>)
    requires Run(run, h, max) && Timely(run)
    requires NoRepeats(u) && (forall k :: k in u ==> IsPort(k)) && forall m :: m in run ==> Listeners(u, m)
    ensures AllShaped(SamplesOf(run)) && ShapedRun(run)
    ensures GatheredOf(t, Sum(SamplesOf(run)).totals) == GrowthOver(t, u, run)
  {
    hide Reaches, Tracks, Timely, GatheredOf, Combine, Growth, Newest, Listeners, ListenerDelta, ShapedRun, ReadingAt, Read;
    RunTracks(run, h, max);
    AllShapedOf(h, SamplesOf(run), max);
    HoldsNewest(run, h, max);
    if |run| == 0 {
      NothingOver(t, u, run);
      NothingGathered(t);
    } else {
      var n := |run| - 1;
      var m, before := run[n], run[..n];
      assert run == before + [m];
      TimelyBefore(run);
      ListenerTotalsHoldAllGrowth(before, m.before, max, t, u);
      HoldsNewest(before, m.before, max);
      OneMoreMoment(t, before, m, h, max, u);
      if m.Sampling? {
        GatheredAdds(t, Sum(SamplesOf(before)), m.s.load);
        assert SamplesOf(run)[..|SamplesOf(run)| - 1] == SamplesOf(before);
      } else {
        assert SamplesOf(run) == SamplesOf(before);
      }
    }
  }

  lemma NothingGathered(t: Gathered)
    ensures Sum([]) == ZERO_LOAD && GatheredOf(t, ZERO_LOAD.totals) == 0
  {
  }

  lemma OneMoreMoment(t: Gathered, before: seq<Moment>, m: Moment, h: History, max: nat, u: seq<string>)
    requires Run(before, m.before, max) && Timely(before) && Reaches(m, h, max) && Listeners(u, m)
    requires ShapedRun(before) && ShapedRun(before + [m])
    ensures m.Sampling? ==> m.s.load.totals.Shaped()
    ensures GrowthOver(t, u, before + [m]) ==
              GrowthOver(t, u, before) + if m.Sampling? then GatheredOf(t, m.s.load.totals) else 0
  {
    hide Run, Timely, Growth, Newest, Read, GrowthOver, Tracks;
    HoldsNewest(before, m.before, max);
    StepReading(m, h, max);
    var f: string -> nat := if m.Sampling? then k => ListenerDelta(t, m.inp.cur, m.before.prev, k) else k => 0;
    forall k | k in u
      ensures f(k) == Delta(ReadingAt(OfListener(t, k), m), Newest(Readings(OfListener(t, k), before)))
    {
      if m.Sampling? { ListenerReads(t, k, m, m.before.prev); } else { DeltaOfZero(Newest(Readings(OfListener(t, k), before))); }
    }
    GrowthOverStep(t, u, before, m, f);
    if m.Sampling? { MomentGathers(t, before, m, h, max, u, f); } else { SumOfZeros(u, f); }
  }
}
