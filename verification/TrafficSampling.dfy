/** One sampling: gathering the dimensions of a frame, and that the history then
    stands for one more sample. */
module TrafficSampling {
  import opened Basics
  import opened TrafficFrames
  import opened TrafficRollup
  import opened TrafficWindows
  import opened TrafficModel

  // ---- gathering the dimensions of one sampling ----

  ghost predicate GatherOk(g: Gather, max: nat) {
    TableOk(g.table, g.ids) && |g.table| <= max && IdsIn(g.dims, g.table)
  }

  lemma KnownId(g: Gather, k: string, max: nat)
    requires GatherOk(g, max)
    ensures k in g.ids ==> g.ids[k] < |g.table| && g.table[g.ids[k]] == k
  {
  }

  lemma GatherKeyOk(g: Gather, k: string, d: DimCounts, max: nat)
    requires GatherOk(g, max)
    ensures var g' := GatherKey(g, k, d, max);
            && GatherOk(g', max)
            && g.table <= g'.table
            && IdsIn(g.dims, g'.table)
  {
    var g' := GatherKey(g, k, d, max);
    assert forall i :: 0 <= i < |g.dims| ==> g.dims[i].id < |g.table|;
    if g'.table != g.table {
      assert forall i :: 0 <= i < |g.table| ==> g.table[i] != k;
    }
  }

  lemma {:induction false} GatherKeysOk(g: Gather, keys: seq<string>, cur: Snapshot, prev: Snapshot, max: nat)
    requires GatherOk(g, max)
    ensures var g' := GatherKeys(g, keys, cur, prev, max);
            GatherOk(g', max) && g.table <= g'.table
  {
    if |keys| > 0 {
      var n := |keys| - 1;
      GatherKeysOk(g, keys[..n], cur, prev, max);
      GatherKeyOk(GatherKeys(g, keys[..n], cur, prev, max), keys[n], KeyDelta(cur, prev, keys[n]), max);
    }
  }

  /** What one key leaves in the frame: its growth, if it grew and has an id. */
  lemma GatherKeyByKey(g: Gather, k: string, d: DimCounts, max: nat)
    requires GatherOk(g, max)
    ensures var g' := GatherKey(g, k, d, max);
            && GatherOk(g', max)
            && IdsIn(g.dims, g.table)
            && ByKey(g'.dims, g'.table) ==
               (if d == ZERO_DIM || (|g.table| >= max && k !in g.ids) then ByKey(g.dims, g.table)
                else AddKey(ByKey(g.dims, g.table), k, d))
  {
    hide TableOk, AddKey;
    GatherKeyOk(g, k, d, max);
    KnownId(g, k, max);
    var g' := GatherKey(g, k, d, max);
    if g'.dims != g.dims {
      ByKeyGrown(g.dims, g.table, g'.table);
      assert g'.dims[..|g'.dims| - 1] == g.dims;
    }
  }

  /** A frame holds exactly the growth of every dimension: a key that is absent
      did not grow, or is unknown to a full table. */
  lemma {:induction false} GatherMeaning(g: Gather, keys: seq<string>, cur: Snapshot, prev: Snapshot, max: nat)
    requires GatherOk(g, max) && g.dims == [] && NoRepeats(keys)
    ensures var g' := GatherKeys(g, keys, cur, prev, max);
            && GatherOk(g', max)
            && (forall k :: k in ByKey(g'.dims, g'.table) ==> k in keys && ByKey(g'.dims, g'.table)[k] == KeyDelta(cur, prev, k))
            && (forall k :: k in keys && k !in ByKey(g'.dims, g'.table) ==>
                  KeyDelta(cur, prev, k) == ZERO_DIM || (|g'.table| >= max && k !in g'.ids))
  {
    if |keys| > 0 {
      var n := |keys| - 1;
      var last := keys[n];
      GatherMeaning(g, keys[..n], cur, prev, max);
      assert last !in keys[..n];
      var before := GatherKeys(g, keys[..n], cur, prev, max);
      GatherKeyByKey(before, last, KeyDelta(cur, prev, last), max);
      var g' := GatherKeys(g, keys, cur, prev, max);
      assert keys == keys[..n] + [last];
      forall k | k in keys && k !in ByKey(g'.dims, g'.table)
        ensures KeyDelta(cur, prev, k) == ZERO_DIM || (|g'.table| >= max && k !in g'.ids)
      {
      }
    }
  }

  /** The traffic of every listener, whether or not its dimension has an id. */
  ghost function PortGrowth(keys: seq<string>, cur: Snapshot, prev: Snapshot): DimCounts {
    if |keys| == 0 then ZERO_DIM
    else
      var k := keys[|keys| - 1];
      var rest := PortGrowth(keys[..|keys| - 1], cur, prev);
      var d := KeyDelta(cur, prev, k);
      if IsPort(k) then DimCounts(rest.bytesIn + d.bytesIn, rest.bytesOut + d.bytesOut, rest.count + d.count, rest.errs, rest.active + d.active)
      else rest
  }

  lemma {:induction false} GatherPorts(g: Gather, keys: seq<string>, cur: Snapshot, prev: Snapshot, max: nat)
    ensures var t := GatherKeys(g, keys, cur, prev, max).totals;
            var p := PortGrowth(keys, cur, prev);
            t == g.totals.(bytesIn := g.totals.bytesIn + p.bytesIn, bytesOut := g.totals.bytesOut + p.bytesOut,
                           conns := g.totals.conns + p.count, active := g.totals.active + p.active)
  {
    if |keys| > 0 { GatherPorts(g, keys[..|keys| - 1], cur, prev, max); }
  }

  // ---- one sampling ----

  /** The history is ready for `Record`. */
  ghost predicate Ready(h: History) {
    && h.prev.Shaped()
    && ShapedPending(h.l1) && ShapedPending(h.l2)
    && (h.l1.pending.Some? ==> h.l1.pending.value.start >= 0)
    && IdsKnown(h)
  }

  /** What a sampling added, in terms of dimension keys. */
  ghost function SampleOf(h: History, inp: Input, max: nat): Sample
    requires Ready(h) && WellRead(inp) && GatherOk(Diff(h, inp, max), max)
  {
    var g := Diff(h, inp, max);
    Sample(inp.end - SAMPLE_STEP, Load(g.totals, ByKey(g.dims, g.table)))
  }

  /** sample: compaction if the table would overflow (`mid` is the history after
      it), then the new frame, rolled up. `s` is what the frame holds. */
  ghost predicate SampleStep(h: History, mid: History, inp: Input, s: Sample, h': History, max: nat) {
    && Ready(h) && WellRead(inp)
    && (if Overflows(h, inp.cur, max) then Compacted(h, mid) else mid == h)
    && Ready(mid) && GatherOk(Diff(mid, inp, max), max)
    && s == SampleOf(mid, inp, max)
    && h' == Record(mid, inp, max)
  }

  /** The history stands for the samples, and its table is in order. */
  ghost predicate Tracks(h: History, samples: seq<Sample>, max: nat) {
    && TableOk(h.table, h.ids) && |h.table| <= max
    && h.prev.Shaped()
    && AllShaped(samples)
    && Represents(h, RollupOf(samples))
  }

  lemma {:induction false} RepresentedIsReady(h: History, e: Rollup)
    requires Represents(h, e) && h.prev.Shaped()
    ensures Ready(h)
  {
    forall f | f in AllFrames(h)
      ensures IdsIn(f.dims, h.table)
    {
      if f in LevelFrames(h.l0) { FrameIdsKnown(h.l0, e.p0, None, CapOf(0), h.table, f); }
      else if f in LevelFrames(h.l1) { FrameIdsKnown(h.l1, e.p1, e.open1, CapOf(1), h.table, f); }
      else { FrameIdsKnown(h.l2, e.p2, e.open2, CapOf(2), h.table, f); }
    }
  }

  lemma FrameIdsKnown(l: Level, pushed: seq<Group>, open: Option<Group>, cap: nat, table: seq<string>, f: Frame)
    requires RepsLevel(l, pushed, open, cap, table) && f in LevelFrames(l)
    ensures IdsIn(f.dims, table)
  {
    if f in l.frames {
      var i :| 0 <= i < |l.frames| && l.frames[i] == f;
      assert Reps(l.frames[i], Last(pushed, cap)[i], table);
    }
  }

  lemma CompactedRepresents(h: History, h': History, e: Rollup)
    requires IdsKnown(h) && Represents(h, e) && Compacted(h, h')
    ensures Represents(h', e)
  {
    assert forall f :: f in LevelFrames(h.l0) ==> f in AllFrames(h);
    assert forall f :: f in LevelFrames(h.l1) ==> f in AllFrames(h);
    assert forall f :: f in LevelFrames(h.l2) ==> f in AllFrames(h);
    CompactedRepsLevel(h.l0, h.table, h'.l0, h'.table, e.p0, None, CapOf(0));
    CompactedRepsLevel(h.l1, h.table, h'.l1, h'.table, e.p1, e.open1, CapOf(1));
    CompactedRepsLevel(h.l2, h.table, h'.l2, h'.table, e.p2, e.open2, CapOf(2));
  }

  lemma RollUpRepresents(l1: Level, l2: Level, e: Rollup, f: Frame, s: Sample, table: seq<string>)
    requires RepsLevel(l1, e.p1, e.open1, CapOf(1), table) && RepsLevel(l2, e.p2, e.open2, CapOf(2), table)
    requires Reps(f, Group(s.start, [s]), table)
    ensures var (l1', l2') := RollUp(l1, l2, f);
            var e' := Take(e, s);
            RepsLevel(l1', e'.p1, e'.open1, CapOf(1), table) && RepsLevel(l2', e'.p2, e'.open2, CapOf(2), table)
  {
    var g := Group(s.start, [s]);
    AddReps(l1, e.p1, e.open1, StepOf(1), CapOf(1), f, g, table);
    var (_, done) := AddFrame(l1, StepOf(1), CapOf(1), f);
    var (doneG, _) := Hold(e.open1, StepOf(1), g);
    if done.Some? {
      AddReps(l2, e.p2, e.open2, StepOf(2), CapOf(2), done.value, doneG.value, table);
      var (doneG2, _) := Hold(e.open2, StepOf(2), doneG.value);
      assert e.p2 + Held(doneG2) == Take(e, s).p2;
    }
    assert e.p1 + Held(doneG) == Take(e, s).p1;
  }

  /** The frame of a sampling stands for its sample. */
  lemma NewFrameRepsSample(h: History, inp: Input, max: nat)
    requires Ready(h) && WellRead(inp) && TableOk(h.table, h.ids) && |h.table| <= max
    ensures var g := Diff(h, inp, max);
            && GatherOk(g, max) && h.table <= g.table
            && SampleOf(h, inp, max).load.totals.Shaped()
            && Reps(Frame(inp.end - SAMPLE_STEP, g.totals, g.dims), Group(inp.end - SAMPLE_STEP, [SampleOf(h, inp, max)]), g.table)
  {
    GatherKeysOk(Gather(DeltaTotals(inp.cur, h.prev, inp.secs), [], h.table, h.ids), inp.keys, inp.cur, h.prev, max);
    ShapeKept(h, inp, max);
    SumOne(SampleOf(h, inp, max));
  }

  /** Recording keeps the history in step with the samples. */
  lemma RecordRepresents(h: History, e: Rollup, inp: Input, max: nat)
    requires Ready(h) && WellRead(inp) && TableOk(h.table, h.ids) && |h.table| <= max && Represents(h, e)
    ensures GatherOk(Diff(h, inp, max), max)
    ensures Represents(Record(h, inp, max), Take(e, SampleOf(h, inp, max)))
  {
    hide TableOk, RepsLevel, Take, IdsKnown, RollUp;
    var g := Diff(h, inp, max);
    NewFrameRepsSample(h, inp, max);
    var f := Frame(inp.end - SAMPLE_STEP, g.totals, g.dims);
    LevelsRepresent(h, e, f, SampleOf(h, inp, max), g.table);
  }

  lemma LevelsRepresent(h: History, e: Rollup, f: Frame, s: Sample, table: seq<string>)
    requires Represents(h, e) && h.table <= table && Reps(f, Group(s.start, [s]), table)
    ensures var e' := Take(e, s);
            && RepsLevel(PushFrame(h.l0, CapOf(0), f), e'.p0, None, CapOf(0), table)
            && RepsLevel(RollUp(h.l1, h.l2, f).0, e'.p1, e'.open1, CapOf(1), table)
            && RepsLevel(RollUp(h.l1, h.l2, f).1, e'.p2, e'.open2, CapOf(2), table)
  {
    GrownRepsLevel(h.l0, e.p0, None, CapOf(0), h.table, table);
    GrownRepsLevel(h.l1, e.p1, e.open1, CapOf(1), h.table, table);
    GrownRepsLevel(h.l2, e.p2, e.open2, CapOf(2), h.table, table);
    PushReps(h.l0.frames, e.p0, CapOf(0), f, Group(s.start, [s]), table);
    RollUpRepresents(h.l1, h.l2, e, f, s, table);
  }

  lemma SampleTracks(h: History, mid: History, inp: Input, s: Sample, h': History, max: nat, samples: seq<Sample>)
    requires Tracks(h, samples, max) && SampleStep(h, mid, inp, s, h', max)
    ensures Tracks(h', samples + [s], max)
    ensures h'.prev == inp.cur && mid.prev == h.prev
  {
    var e := RollupOf(samples);
    if Overflows(h, inp.cur, max) { CompactedRepresents(h, mid, e); }
    RecordRepresents(mid, e, inp, max);
    assert (samples + [s])[..|samples|] == samples;
    GatherKeysOk(Gather(DeltaTotals(inp.cur, mid.prev, inp.secs), [], mid.table, mid.ids), inp.keys, inp.cur, mid.prev, max);
  }

  /** A step is always possible: compaction exists (see TrafficStats.Compact), and
      with it the table has room or the unknown dimensions are left out. */
  lemma StepEnabled(h: History, mid: History, inp: Input, max: nat, samples: seq<Sample>)
    requires Tracks(h, samples, max) && WellRead(inp)
    requires IdsKnown(h) && (if Overflows(h, inp.cur, max) then Compacted(h, mid) else mid == h)
    ensures Ready(h) && Ready(mid) && GatherOk(Diff(mid, inp, max), max)
    ensures SampleStep(h, mid, inp, SampleOf(mid, inp, max), Record(mid, inp, max), max)
  {
    var e := RollupOf(samples);
    RepresentedIsReady(h, e);
    if Overflows(h, inp.cur, max) { CompactedRepresents(h, mid, e); }
    RepresentedIsReady(mid, e);
    RecordRepresents(mid, e, inp, max);
  }

  lemma MidInOrder(h: History, mid: History, inp: Input, s: Sample, h': History, max: nat, samples: seq<Sample>)
    requires Tracks(h, samples, max) && SampleStep(h, mid, inp, s, h', max)
    ensures TableOk(mid.table, mid.ids) && |mid.table| <= max && mid.prev == h.prev
  {
  }

  lemma StepReads(h: History, mid: History, inp: Input, s: Sample, h': History, max: nat)
    requires SampleStep(h, mid, inp, s, h', max)
    ensures inp.cur.Shaped() && h'.prev == inp.cur
  {
  }

  // ---- what is not a difference ----

  ghost function Open(cur: Snapshot, k: string): nat {
    if k in cur.dims && cur.dims[k].active > 0 then cur.dims[k].active else 0
  }

  /** The connections open on all listeners. */
  ghost function OpenOnListeners(keys: seq<string>, cur: Snapshot): nat {
    if |keys| == 0 then 0
    else
      var k := keys[|keys| - 1];
      OpenOnListeners(keys[..|keys| - 1], cur) + if "port:" <= k then Open(cur, k) else 0
  }

  lemma {:induction false} PortsOpen(keys: seq<string>, cur: Snapshot, prev: Snapshot)
    ensures PortGrowth(keys, cur, prev).active == OpenOnListeners(keys, cur)
  {
    if |keys| > 0 { PortsOpen(keys[..|keys| - 1], cur, prev); }
  }

  /** A sample starts ten seconds before its end, lasts the seconds read, and holds the
      connections open now: those of all listeners, and of each dimension its own. */
  lemma SampleIsOfNow(h: History, inp: Input, max: nat)
    requires Ready(h) && WellRead(inp) && TableOk(h.table, h.ids) && |h.table| <= max && GatherOk(Diff(h, inp, max), max)
    ensures var s := SampleOf(h, inp, max);
      && s.start == inp.end - 10
      && s.load.totals.secs == inp.secs && s.load.totals.active == OpenOnListeners(inp.keys, inp.cur)
      && forall k :: k in s.load.dims ==> s.load.dims[k].active == Open(inp.cur, k)
  {
    hide GatherKeys, TableOk;
    var g := Gather(DeltaTotals(inp.cur, h.prev, inp.secs), [], h.table, h.ids);
    GatherPorts(g, inp.keys, inp.cur, h.prev, max);
    GatherMeaning(g, inp.keys, inp.cur, h.prev, max);
    PortsOpen(inp.keys, inp.cur, h.prev);
  }
}
