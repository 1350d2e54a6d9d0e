/** Saving the history and loading it again. */
module TrafficRestart {
  import opened Basics
  import opened TrafficFrames
  import opened TrafficRollup
  import opened TrafficWindows
  import opened TrafficModel
  import opened TrafficSampling

  /** The history file: the table and the levels, without the counters' readings. */
  datatype Saved = Saved(dims: seq<string>, l0: Level, l1: Level, l2: Level)

  function Save(h: History): Saved { Saved(h.table, h.l0, h.l1, h.l2) }

  /** What load accepts of a saved frame. */
  predicate ValidFrame(f: Frame, step: Step, dims: seq<string>, max: nat) {
    f.start > 0 && Mod(f.start, step) == 0 && |f.dims| <= max && IdsIn(f.dims, dims)
  }

  function Keep(fs: seq<Frame>, step: Step, dims: seq<string>, max: nat): seq<Frame> {
    if |fs| == 0 then []
    else
      var rest := Keep(fs[..|fs| - 1], step, dims, max);
      if ValidFrame(fs[|fs| - 1], step, dims, max) then rest + [fs[|fs| - 1]] else rest
  }

  /** A level as loaded: its valid frames pushed in order, its pending frame if valid. */
  function Restored(l: Level, step: Step, cap: nat, dims: seq<string>, max: nat): Level {
    Level(Last(Keep(l.frames, step, dims, max), cap),
          if l.pending.Some? && ValidFrame(l.pending.value, step, dims, max) then l.pending else None)
  }

  /** The loaded history before its table is compacted. */
  function Loaded(s: Saved, max: nat): History {
    History(s.dims, map[], ZERO_SNAPSHOT,
            Restored(s.l0, StepOf(0), CapOf(0), s.dims, max),
            Restored(s.l1, StepOf(1), CapOf(1), s.dims, max),
            Restored(s.l2, StepOf(2), CapOf(2), s.dims, max))
  }

  lemma LastOfLast<T>(s: seq<T>, x: T, cap: nat)
    requires cap > 0
    ensures Last(Last(s, cap) + [x], cap) == Last(s + [x], cap)
  {
  }

  lemma {:induction false} KeepsValid(fs: seq<Frame>, step: Step, dims: seq<string>, max: nat)
    ensures forall f :: f in Keep(fs, step, dims, max) ==> f in fs && ValidFrame(f, step, dims, max)
    ensures (forall f :: f in fs ==> ValidFrame(f, step, dims, max)) ==> Keep(fs, step, dims, max) == fs
  {
    if |fs| > 0 {
      var n := |fs| - 1;
      assert fs == fs[..n] + [fs[n]];
      KeepsValid(fs[..n], step, dims, max);
    }
  }

  /** A saved frame is loaded exactly if it starts after the first moment and on a boundary
      of its level, and holds no more dimensions than allowed, all of them listed. */
  lemma {:induction false} LoadedFrames(fs: seq<Frame>, step: Step, dims: seq<string>, max: nat, f: Frame)
    ensures f in Keep(fs, step, dims, max) <==>
      f in fs && f.start >= 1 && f.start % step == 0 && |f.dims| <= max
      && forall i :: 0 <= i < |f.dims| ==> f.dims[i].id < |dims|
  {
    if |fs| > 0 {
      var n := |fs| - 1;
      assert fs == fs[..n] + [fs[n]];
      LoadedFrames(fs[..n], step, dims, max, f);
    }
  }

  /** Whatever the file holds, every id of the loaded frames is in its table. */
  lemma LoadedIdsKnown(s: Saved, max: nat)
    ensures IdsKnown(Loaded(s, max))
  {
    KeepsValid(s.l0.frames, StepOf(0), s.dims, max);
    KeepsValid(s.l1.frames, StepOf(1), s.dims, max);
    KeepsValid(s.l2.frames, StepOf(2), s.dims, max);
    var h := Loaded(s, max);
    forall f | f in AllFrames(h)
      ensures IdsIn(f.dims, s.dims)
    {
      if f in LevelFrames(h.l0) { RestoredValid(s.l0, StepOf(0), CapOf(0), s.dims, max, f); }
      else if f in LevelFrames(h.l1) { RestoredValid(s.l1, StepOf(1), CapOf(1), s.dims, max, f); }
      else { RestoredValid(s.l2, StepOf(2), CapOf(2), s.dims, max, f); }
    }
  }

  lemma RestoredValid(l: Level, step: Step, cap: nat, dims: seq<string>, max: nat, f: Frame)
    requires f in LevelFrames(Restored(l, step, cap, dims, max))
    ensures f in LevelFrames(l) && ValidFrame(f, step, dims, max)
  {
    KeepsValid(l.frames, step, dims, max);
    var kept := Keep(l.frames, step, dims, max);
    if f in Last(kept, cap) { assert f in kept; }
  }

  // ---- a restart keeps the history ----

  /** The frame lists each dimension once, and only dimensions among the keys. */
  ghost predicate LeanGather(g: Gather, keys: seq<string>) {
    DistinctIds(g.dims) && forall i :: 0 <= i < |g.dims| ==> g.dims[i].id < |g.table| && g.table[g.dims[i].id] in keys
  }

  lemma GatherKeyLean(g: Gather, keys: seq<string>, k: string, d: DimCounts, max: nat)
    requires GatherOk(g, max) && LeanGather(g, keys) && k !in keys
    ensures LeanGather(GatherKey(g, k, d, max), keys + [k])
  {
    GatherKeyOk(g, k, d, max);
    hide TableOk;
    KnownId(g, k, max);
    var g' := GatherKey(g, k, d, max);
    if g'.dims != g.dims {
      var id := g'.dims[|g.dims|].id;
      assert g'.table[id] == k;
      forall i | 0 <= i < |g.dims|
        ensures g'.dims[i].id != id
      {
        assert g'.table[g.dims[i].id] == g.table[g.dims[i].id];
      }
    }
  }

  lemma {:induction false} GatherLean(g: Gather, keys: seq<string>, cur: Snapshot, prev: Snapshot, max: nat)
    requires GatherOk(g, max) && g.dims == [] && NoRepeats(keys)
    ensures LeanGather(GatherKeys(g, keys, cur, prev, max), keys)
  {
    if |keys| > 0 {
      var n := |keys| - 1;
      GatherLean(g, keys[..n], cur, prev, max);
      GatherKeysOk(g, keys[..n], cur, prev, max);
      assert keys == keys[..n] + [keys[n]];
      assert keys[n] !in keys[..n];
      hide LeanGather, GatherOk, GatherKey;
      GatherKeyLean(GatherKeys(g, keys[..n], cur, prev, max), keys[..n], keys[n], KeyDelta(cur, prev, keys[n]), max);
    }
  }

  lemma AddLean(l: Level, step: Step, cap: nat, f: Frame)
    requires f.totals.Shaped() && ShapedPending(l) && f.start >= 0
    requires (forall x :: x in LevelFrames(l) ==> DistinctIds(x.dims)) && DistinctIds(f.dims)
    ensures var (l', done) := AddFrame(l, step, cap, f);
            && (forall x :: x in LevelFrames(l') ==> DistinctIds(x.dims))
            && (done.Some? ==> DistinctIds(done.value.dims))
  {
    var start := Floor(f.start, step);
    assert l.pending.Some? ==> l.pending.value in LevelFrames(l);
    var base := if l.pending.Some? && l.pending.value.start == start then l.pending.value else NewFrame(start);
    AddDimsDistinct(base.dims, f.dims);
    if l.pending.Some? && l.pending.value.start != start { PushLean(l, cap, l.pending.value); }
  }

  lemma PushLean(l: Level, cap: nat, f: Frame)
    requires (forall x :: x in LevelFrames(l) ==> DistinctIds(x.dims)) && DistinctIds(f.dims)
    ensures forall x :: x in LevelFrames(PushFrame(l, cap, f)) ==> DistinctIds(x.dims)
  {
    forall x | x in LevelFrames(PushFrame(l, cap, f))
      ensures DistinctIds(x.dims)
    {
      assert x in Last(l.frames + [f], cap) ==> x in l.frames + [f];
      assert x == f || x in LevelFrames(l);
    }
  }

  lemma LevelsLean(h: History, f: Frame)
    requires Lean(h) && DistinctIds(f.dims) && f.totals.Shaped() && f.start >= 0
    requires ShapedPending(h.l1) && ShapedPending(h.l2)
    requires h.l1.pending.Some? ==> h.l1.pending.value.start >= 0
    ensures forall x :: x in LevelFrames(PushFrame(h.l0, CapOf(0), f)) ==> DistinctIds(x.dims)
    ensures forall x :: x in LevelFrames(RollUp(h.l1, h.l2, f).0) ==> DistinctIds(x.dims)
    ensures forall x :: x in LevelFrames(RollUp(h.l1, h.l2, f).1) ==> DistinctIds(x.dims)
  {
    forall x | x in LevelFrames(h.l0) || x in LevelFrames(h.l1) || x in LevelFrames(h.l2)
      ensures DistinctIds(x.dims)
    {
      assert x in AllFrames(h);
    }
    PushLean(h.l0, CapOf(0), f);
    AddLean(h.l1, StepOf(1), CapOf(1), f);
    var (_, done) := AddFrame(h.l1, StepOf(1), CapOf(1), f);
    if done.Some? { AddLean(h.l2, StepOf(2), CapOf(2), done.value); }
  }

  lemma StepLean(h: History, mid: History, inp: Input, s: Sample, h': History, max: nat)
    requires Lean(h) && SampleStep(h, mid, inp, s, h', max) && TableOk(mid.table, mid.ids) && |mid.table| <= max
    ensures Lean(h')
  {
    hide Compacted, DistinctIds, TableOk, RollUp;
    assert Lean(mid) by { MidLean(h, mid, inp, max); }
    var g := Diff(mid, inp, max);
    GatherLean(Gather(DeltaTotals(inp.cur, mid.prev, inp.secs), [], mid.table, mid.ids), inp.keys, inp.cur, mid.prev, max);
    ShapeKept(mid, inp, max);
    LevelsLean(mid, Frame(inp.end - SAMPLE_STEP, g.totals, g.dims));
    forall x | x in AllFrames(h')
      ensures DistinctIds(x.dims)
    {
      assert x in LevelFrames(h'.l0) || x in LevelFrames(h'.l1) || x in LevelFrames(h'.l2);
    }
  }

  lemma MidLean(h: History, mid: History, inp: Input, max: nat)
    requires Lean(h) && Ready(h)
    requires if Overflows(h, inp.cur, max) then Compacted(h, mid) else mid == h
    ensures Lean(mid)
  {
  }

  /** A level whose frames stand for groups is restored whole. */
  lemma LevelSurvives(l: Level, pushed: seq<Group>, open: Option<Group>, step: Step, cap: nat, table: seq<string>, max: nat)
    requires RepsLevel(l, pushed, open, cap, table) && |table| <= max
    requires forall g :: g in pushed + Held(open) ==> Fits(g, step) && g.start > 0
    requires forall f :: f in LevelFrames(l) ==> DistinctIds(f.dims)
    ensures Restored(l, step, cap, table, max) == l
  {
    hide Reps, Fits, ValidFrame;
    forall f | f in l.frames
      ensures ValidFrame(f, step, table, max)
    {
      assert f in LevelFrames(l);
      var i :| 0 <= i < |l.frames| && l.frames[i] == f;
      var g := Last(pushed, cap)[i];
      assert g in pushed + Held(open);
      FrameSurvives(f, g, step, table, max);
    }
    if open.Some? {
      assert l.pending.value in LevelFrames(l);
      assert open.value in pushed + Held(open);
      FrameSurvives(l.pending.value, open.value, step, table, max);
    }
    KeepsValid(l.frames, step, table, max);
    assert |l.frames| <= cap;
  }

  lemma FrameSurvives(f: Frame, g: Group, step: Step, table: seq<string>, max: nat)
    requires Reps(f, g, table) && Fits(g, step) && g.start > 0
    requires DistinctIds(f.dims) && |table| <= max
    ensures ValidFrame(f, step, table, max)
  {
    DistinctFit(f.dims, |table|);
  }

  ghost predicate StartsPositive(e: Rollup) {
    && (forall g :: g in e.p0 ==> g.start > 0)
    && (forall g :: g in e.p1 + Held(e.open1) ==> g.start > 0)
    && (forall g :: g in e.p2 + Held(e.open2) ==> g.start > 0)
  }

  lemma LateFloor(t: nat, step: Step)
    requires t >= StepOf(2)
    ensures Floor(t, step) >= StepOf(2)
  {
    FloorMonotone(StepOf(2), t, step);
    assert Floor(3600, step) == 3600;
  }

  /** Whatever is held is as late as the samples. */
  ghost predicate Late(e: Rollup) {
    && (forall g :: g in e.p0 ==> g.start >= StepOf(2))
    && (forall g :: g in e.p1 ==> g.start >= StepOf(2))
    && (e.open1.Some? ==> e.open1.value.start >= StepOf(2))
    && (forall g :: g in e.p2 ==> g.start >= StepOf(2))
    && (e.open2.Some? ==> e.open2.value.start >= StepOf(2))
  }

  lemma LateStep(e: Rollup, s: Sample)
    requires Late(e) && s.start >= StepOf(2)
    ensures Late(Take(e, s))
  {
    hide Floor, Mod;
    LateFloor(s.start, StepOf(1));
    if e.open1.Some? { LateFloor(e.open1.value.start, StepOf(2)); }
  }

  lemma LateIsPositive(e: Rollup)
    requires Late(e)
    ensures StartsPositive(e)
  {
  }

  lemma {:induction false} LateSamples(samples: seq<Sample>)
    requires forall i :: 0 <= i < |samples| ==> samples[i].start >= StepOf(2)
    ensures Late(RollupOf(samples))
  {
    hide Take, StepOf;
    if |samples| > 0 {
      LateSamples(samples[..|samples| - 1]);
      LateStep(RollupOf(samples[..|samples| - 1]), samples[|samples| - 1]);
    }
  }

  /** Samples as a history can be restarted with: in order, and later than the first
      hour of 1970, before which a frame's start of 0 reads as damage. */
  ghost predicate InTime(samples: seq<Sample>) {
    Rising(samples) && forall i :: 0 <= i < |samples| ==> samples[i].start >= StepOf(2)
  }

  /** A restart keeps the history: what is loaded from the file, however its table is
      compacted, stands for the same samples. */
  lemma RestartKeepsHistory(h: History, max: nat, samples: seq<Sample>, h': History)
    requires Tracks(h, samples, max) && Lean(h) && InTime(samples)
    requires IdsKnown(Loaded(Save(h), max)) && Compacted(Loaded(Save(h), max), h')
    ensures Tracks(h', samples, max) && Lean(h') && h'.prev == ZERO_SNAPSHOT
  {
    hide Compacted, Represents, Sound, StartsPositive, Late, TableOk, IdsKnown, Loaded, Rising, Conserves;
    var e := RollupOf(samples);
    RollupConserves(samples);
    LateSamples(samples);
    LateIsPositive(e);
    LevelsSurvive(h, samples, max);
    OnlyLevelsMatter(h, e);
    CompactedRepresents(Loaded(Save(h), max), h', e);
    CompactedTable(Loaded(Save(h), max), h');
  }

  /** What a history stands for is in its table and levels alone. */
  lemma OnlyLevelsMatter(h: History, e: Rollup)
    requires Represents(h, e)
    ensures Represents(h.(ids := map[], prev := ZERO_SNAPSHOT), e)
  {
  }

  lemma CompactedTable(h: History, h': History)
    requires IdsKnown(h) && Compacted(h, h')
    ensures TableOk(h'.table, h'.ids) && |h'.table| <= |h.table| && h'.prev == h.prev && Lean(h')
  {
  }

  lemma AllFit(e: Rollup)
    requires Sound(e)
    ensures forall g :: g in e.p0 ==> Fits(g, StepOf(0))
    ensures forall g :: g in e.p1 + Held(e.open1) ==> Fits(g, StepOf(1))
    ensures forall g :: g in e.p2 + Held(e.open2) ==> Fits(g, StepOf(2))
  {
  }

  lemma LevelsSurvive(h: History, samples: seq<Sample>, max: nat)
    requires Represents(h, RollupOf(samples)) && |h.table| <= max && Lean(h)
    requires Sound(RollupOf(samples)) && StartsPositive(RollupOf(samples))
    ensures Loaded(Save(h), max) == h.(ids := map[], prev := ZERO_SNAPSHOT)
  {
    hide RepsLevel, DistinctIds;
    AllFit(RollupOf(samples));
    var e := RollupOf(samples);
    forall x | x in LevelFrames(h.l0) || x in LevelFrames(h.l1) || x in LevelFrames(h.l2)
      ensures DistinctIds(x.dims)
    {
      assert x in AllFrames(h);
    }
    assert e.p0 + Held(None) == e.p0;
    LevelSurvives(h.l0, e.p0, None, StepOf(0), CapOf(0), h.table, max);
    LevelSurvives(h.l1, e.p1, e.open1, StepOf(1), CapOf(1), h.table, max);
    LevelSurvives(h.l2, e.p2, e.open2, StepOf(2), CapOf(2), h.table, max);
  }
}
