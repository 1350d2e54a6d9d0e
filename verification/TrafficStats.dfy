/** The traffic history as the source keeps it: levels and a dimension table
    updated in place. Every method is proved against the model on values. */
module TrafficStats {
  import opened Basics
  import opened TrafficFrames
  import opened TrafficRollup
  import opened TrafficWindows
  import opened TrafficModel
  import opened TrafficSampling
  import opened TrafficReport
  import opened TrafficRestart

  // ---- renumbering, on values ----

  function Renumber(ds: seq<DimFrame>, remap: seq<nat>): seq<DimFrame>
    requires forall i :: 0 <= i < |ds| ==> ds[i].id < |remap|
  {
    seq(|ds|, i requires 0 <= i < |ds| => DimFrame(remap[ds[i].id], ds[i].c))
  }

  /** The frame with its entries renumbered, and merged where ids now coincide. */
  function Renumbered(f: Frame, remap: seq<nat>): Frame
    requires forall i :: 0 <= i < |f.dims| ==> f.dims[i].id < |remap|
  {
    f.(dims := AddDims([], Renumber(f.dims, remap)))
  }

  ghost predicate FrameUses(f: Frame, id: nat) { exists d :: d in f.dims && d.id == id }

  ghost predicate AnyUses(fs: seq<Frame>, id: nat) { exists f :: f in fs && FrameUses(f, id) }

  /** Used ids keep their key under the new numbering. */
  ghost predicate KeepsKeys(used: seq<bool>, table: seq<string>, remap: seq<nat>, table': seq<string>) {
    && |used| == |table| == |remap|
    && forall id :: 0 <= id < |table| && used[id] ==> remap[id] < |table'| && table'[remap[id]] == table[id]
  }

  /** One of the first n ids is in use and got the number id'. */
  ghost predicate Numbered(used: seq<bool>, remap: seq<nat>, n: nat, id': nat)
    requires n <= |used| == |remap|
  {
    exists id :: 0 <= id < n && used[id] && remap[id] == id'
  }

  /** Gives every key in use a new id, one id per key however often the old table
      lists it, and nothing else. */
  method NumberUsed(used: seq<bool>, dims: seq<string>) returns (remap: seq<nat>, table: seq<string>, ids: map<string, nat>)
    requires |used| == |dims|
    ensures KeepsKeys(used, dims, remap, table)
    ensures TableOk(table, ids) && |table| <= |dims|
    ensures forall id' :: 0 <= id' < |table| ==> Numbered(used, remap, |dims|, id')
  {
    remap, table, ids := seq(|dims|, _ => 0), [], map[];
    var id := 0;
    while id < |dims|
      invariant 0 <= id <= |dims| == |remap| && |table| <= id
      invariant TableOk(table, ids)
      invariant forall i :: 0 <= i < id && used[i] ==> remap[i] < |table| && table[remap[i]] == dims[i]
      invariant forall id' :: 0 <= id' < |table| ==> Numbered(used, remap, id, id')
    {
      ghost var before, known := remap, |table|;
      var key := dims[id];
      if used[id] {
        if key in ids {
          remap := remap[id := ids[key]];
        } else {
          remap := remap[id := |table|];
          ids := ids[key := |table|];
          table := table + [key];
        }
      }
      id := id + 1;
      forall id' | 0 <= id' < |table|
        ensures Numbered(used, remap, id, id')
      {
        if id' < known {
          assert Numbered(used, before, id - 1, id');
          var i :| 0 <= i < id - 1 && used[i] && before[i] == id';
          assert remap[i] == id';
        } else {
          assert remap[id - 1] == id';
        }
      }
    }
  }

  lemma {:induction false} RenumberKeepsShares(ds: seq<DimFrame>, used: seq<bool>, table: seq<string>, remap: seq<nat>, table': seq<string>)
    requires KeepsKeys(used, table, remap, table') && IdsIn(ds, table)
    requires forall i :: 0 <= i < |ds| ==> used[ds[i].id]
    ensures IdsIn(Renumber(ds, remap), table') && ByKey(Renumber(ds, remap), table') == ByKey(ds, table)
  {
    if |ds| > 0 {
      var n := |ds| - 1;
      RenumberKeepsShares(ds[..n], used, table, remap, table');
      assert Renumber(ds, remap)[..n] == Renumber(ds[..n], remap);
    }
  }

  lemma RenumberedSame(f: Frame, used: seq<bool>, table: seq<string>, remap: seq<nat>, table': seq<string>)
    requires KeepsKeys(used, table, remap, table') && IdsIn(f.dims, table)
    requires forall i :: 0 <= i < |f.dims| ==> used[f.dims[i].id]
    ensures SameFrame(f, table, Renumbered(f, remap), table')
  {
    RenumberKeepsShares(f.dims, used, table, remap, table');
    AddDimsByKey([], Renumber(f.dims, remap), table');
    JoinLaws(map[], ByKey(f.dims, table));
    JoinLaws(ByKey(f.dims, table), map[]);
  }

  lemma {:induction false} AddDimKeepsIds(ds: seq<DimFrame>, d: DimFrame)
    ensures exists e :: e in AddDim(ds, d) && e.id == d.id
    ensures forall x :: x in ds ==> exists e :: e in AddDim(ds, d) && e.id == x.id
  {
    var r := AddDim(ds, d);
    if |ds| > 0 {
      assert ds == [ds[0]] + ds[1..];
      assert r[0] in r && r[0].id == ds[0].id;
      if ds[0].id == d.id {
        forall x | x in ds
          ensures exists e :: e in r && e.id == x.id
        {
          if x != ds[0] { assert x in ds[1..] && x in r; }
        }
      } else {
        AddDimKeepsIds(ds[1..], d);
        assert r == [ds[0]] + AddDim(ds[1..], d);
        forall x | x in ds
          ensures exists e :: e in r && e.id == x.id
        {
          if x in ds[1..] {
            var e :| e in AddDim(ds[1..], d) && e.id == x.id;
            assert e in r;
          }
        }
        var e :| e in AddDim(ds[1..], d) && e.id == d.id;
        assert e in r;
      }
    } else {
      assert r[0] == d;
    }
  }

  lemma {:induction false} AddDimsKeepsIds(ds: seq<DimFrame>, more: seq<DimFrame>, d: DimFrame)
    requires d in more
    ensures exists e :: e in AddDims(ds, more) && e.id == d.id
  {
    var n := |more| - 1;
    var before := AddDims(ds, more[..n]);
    AddDimKeepsIds(before, more[n]);
    if d != more[n] {
      assert more == more[..n] + [more[n]];
      AddDimsKeepsIds(ds, more[..n], d);
    }
  }

  lemma RenumberedUses(f: Frame, remap: seq<nat>, id: nat)
    requires forall i :: 0 <= i < |f.dims| ==> f.dims[i].id < |remap|
    requires FrameUses(f, id) && id < |remap|
    ensures FrameUses(Renumbered(f, remap), remap[id])
  {
    var d :| d in f.dims && d.id == id;
    var i :| 0 <= i < |f.dims| && f.dims[i] == d;
    assert Renumber(f.dims, remap)[i].id == remap[id];
    AddDimsKeepsIds([], Renumber(f.dims, remap), Renumber(f.dims, remap)[i]);
  }

  lemma UsesOneMore(fs: seq<Frame>, n: nat)
    requires n < |fs|
    ensures forall id :: AnyUses(fs[..n + 1], id) <==> AnyUses(fs[..n], id) || FrameUses(fs[n], id)
  {
    assert fs[..n + 1] == fs[..n] + [fs[n]];
  }

  // ---- one resolution ----

  class HistoryLevel {
    const step: Step
    const cap: nat
    var frames: seq<Frame>
    var pending: Option<Frame>

    constructor (step: Step, cap: nat)
      ensures this.step == step && this.cap == cap && Value() == EMPTY_LEVEL
    {
      this.step, this.cap := step, cap;
      frames, pending := [], None;
    }

    function Value(): Level
      reads this
    {
      Level(frames, pending)
    }

    /** Appends a completed frame; a full ring drops its oldest frames first. */
    method Push(f: Frame)
      requires cap > 0
      modifies this
      ensures Value() == PushFrame(old(Value()), cap, f)
    {
      if |frames| >= cap {
        frames := frames[|frames| - cap + 1..];
      }
      frames := frames + [f];
    }

    /** In place, what `AddFrame` is on values; `done` is the frame that went to the ring. */
    method Add(f: Frame) returns (done: Option<Frame>)
      requires cap > 0 && f.totals.Shaped() && f.start >= 0 && ShapedPending(Value())
      modifies this
      ensures (Value(), done) == AddFrame(old(Value()), step, cap, f)
    {
      var start := Floor(f.start, step);
      done := None;
      if pending.Some? && pending.value.start != start {
        done := pending;
        Push(done.value);
        pending := None;
      }
      if pending.None? {
        pending := Some(NewFrame(start));
      }
      var merged := Merge(pending.value, f);
      pending := Some(merged);
    }

    /** Takes over a saved level, frame by frame, dropping what is damaged. */
    method Restore(saved: Level, table: seq<string>, max: nat)
      requires cap > 0 && Value() == EMPTY_LEVEL
      modifies this
      ensures Value() == Restored(saved, step, cap, table, max)
    {
      var j := 0;
      while j < |saved.frames|
        invariant 0 <= j <= |saved.frames| && pending == None
        invariant frames == Last(Keep(saved.frames[..j], step, table, max), cap)
      {
        assert saved.frames[..j + 1][..j] == saved.frames[..j];
        if ValidFrame(saved.frames[j], step, table, max) {
          LastOfLast(Keep(saved.frames[..j], step, table, max), saved.frames[j], cap);
          Push(saved.frames[j]);
        }
        j := j + 1;
      }
      assert saved.frames[..j] == saved.frames;
      if saved.pending.Some? && ValidFrame(saved.pending.value, step, table, max) {
        pending := saved.pending;
      }
    }

    /** Marks the dimension ids the frames of this level refer to. */
    method Mark(used: seq<bool>) returns (marked: seq<bool>)
      requires forall f :: f in LevelFrames(Value()) ==> forall i :: 0 <= i < |f.dims| ==> f.dims[i].id < |used|
      ensures |marked| == |used|
      ensures forall id :: 0 <= id < |used| ==> (marked[id] <==> used[id] || AnyUses(LevelFrames(Value()), id))
    {
      marked := used;
      var fs := LevelFrames(Value());
      var n := 0;
      while n < |fs|
        invariant 0 <= n <= |fs| && |marked| == |used|
        invariant forall id :: 0 <= id < |used| ==> (marked[id] <==> used[id] || AnyUses(fs[..n], id))
      {
        assert fs[n] in fs;
        var before := marked;
        var ds := fs[n].dims;
        var i := 0;
        while i < |ds|
          invariant 0 <= i <= |ds| && |marked| == |used|
          invariant forall id :: 0 <= id < |used| ==> (marked[id] <==> before[id] || exists d :: d in ds[..i] && d.id == id)
        {
          assert ds[..i + 1] == ds[..i] + [ds[i]];
          marked := marked[ds[i].id := true];
          i := i + 1;
        }
        assert ds[..i] == ds;
        assert forall id :: 0 <= id < |used| ==> (marked[id] <==> before[id] || FrameUses(fs[n], id));
        UsesOneMore(fs, n);
        n := n + 1;
      }
      assert fs[..n] == fs;
    }

    /** Renumbers every frame of the level in place. */
    method Remap(remap: seq<nat>)
      requires forall f :: f in LevelFrames(Value()) ==> forall i :: 0 <= i < |f.dims| ==> f.dims[i].id < |remap|
      modifies this
      ensures |frames| == |old(frames)|
      ensures forall j :: 0 <= j < |frames| ==> old(frames[j]) in LevelFrames(old(Value())) && frames[j] == Renumbered(old(frames[j]), remap)
      ensures pending == if old(pending).Some? then Some(Renumbered(old(pending).value, remap)) else None
    {
      var j := 0;
      while j < |frames|
        invariant 0 <= j <= |frames| == |old(frames)|
        invariant forall i :: 0 <= i < j ==> old(frames[i]) in LevelFrames(old(Value())) && frames[i] == Renumbered(old(frames[i]), remap)
        invariant forall i :: j <= i < |frames| ==> frames[i] == old(frames[i])
        invariant pending == old(pending)
      {
        assert frames[j] in LevelFrames(old(Value()));
        var dims := MergeDims([], Renumber(frames[j].dims, remap));
        frames := frames[j := frames[j].(dims := dims)];
        j := j + 1;
      }
      if pending.Some? {
        assert pending.value in LevelFrames(old(Value()));
        var dims := MergeDims([], Renumber(pending.value.dims, remap));
        pending := Some(pending.value.(dims := dims));
      }
    }
  }

  // ---- the whole history ----

  /** The frames of a level are whole: ids known, counters of the right sizes. */
  ghost predicate LevelReady(l: Level, table: seq<string>) {
    && (forall f :: f in LevelFrames(l) ==> IdsIn(f.dims, table) && f.totals.Shaped())
    && (l.pending.Some? ==> l.pending.value.start >= 0)
  }

  /** What the source relies on between calls. */
  ghost predicate Sane(h: History, max: nat) {
    && h.prev.Shaped() && TableOk(h.table, h.ids) && |h.table| <= max
    && LevelReady(h.l0, h.table) && LevelReady(h.l1, h.table) && LevelReady(h.l2, h.table)
  }

  lemma SaneIsReady(h: History, max: nat)
    requires Sane(h, max)
    ensures Ready(h) && TableOk(h.table, h.ids) && |h.table| <= max
  {
    if h.l1.pending.Some? { assert h.l1.pending.value in LevelFrames(h.l1); }
    if h.l2.pending.Some? { assert h.l2.pending.value in LevelFrames(h.l2); }
    forall f | f in AllFrames(h)
      ensures IdsIn(f.dims, h.table)
    {
      assert f in LevelFrames(h.l0) || f in LevelFrames(h.l1) || f in LevelFrames(h.l2);
    }
  }

  /** Compaction, in terms of the numbering it used. */
  lemma RenumberedIsCompacted(h: History, used: seq<bool>, remap: seq<nat>, h': History)
    requires IdsKnown(h) && h'.prev == h.prev
    requires |h'.table| <= |h.table| && TableOk(h'.table, h'.ids)
    requires KeepsKeys(used, h.table, remap, h'.table)
    requires forall id :: 0 <= id < |h.table| ==> (used[id] <==> AnyUses(AllFrames(h), id))
    requires forall id' :: 0 <= id' < |h'.table| ==> Numbered(used, remap, |h.table|, id')
    requires RenumberedLevel(h.l0, remap, h'.l0) && RenumberedLevel(h.l1, remap, h'.l1) && RenumberedLevel(h.l2, remap, h'.l2)
    ensures Compacted(h, h')
  {
    assert AllFrames(h) == LevelFrames(h.l0) + LevelFrames(h.l1) + LevelFrames(h.l2);
    LevelSame(h, h.l0, used, remap, h', h'.l0);
    LevelSame(h, h.l1, used, remap, h', h'.l1);
    LevelSame(h, h.l2, used, remap, h', h'.l2);
    forall f' | f' in AllFrames(h')
      ensures DistinctIds(f'.dims)
    {
      if f' in LevelFrames(h'.l0) { RenumberedLean(h.l0, remap, h'.l0, f'); }
      else if f' in LevelFrames(h'.l1) { RenumberedLean(h.l1, remap, h'.l1, f'); }
      else { RenumberedLean(h.l2, remap, h'.l2, f'); }
    }
    forall id' | 0 <= id' < |h'.table|
      ensures Used(h', id')
    {
      assert Numbered(used, remap, |h.table|, id');
      var id :| 0 <= id < |h.table| && used[id] && remap[id] == id';
      var f :| f in AllFrames(h) && FrameUses(f, id);
      RenumberedUses(f, remap, id);
      RenumberedIn(h, remap, h', f);
    }
  }

  lemma CompactedSane(h: History, h': History, max: nat)
    requires Sane(h, max) && IdsKnown(h) && Compacted(h, h')
    ensures Sane(h', max)
  {
    SameLevelReady(h.l0, h.table, h'.l0, h'.table);
    SameLevelReady(h.l1, h.table, h'.l1, h'.table);
    SameLevelReady(h.l2, h.table, h'.l2, h'.table);
  }

  lemma SameLevelReady(l: Level, table: seq<string>, l': Level, table': seq<string>)
    requires LevelReady(l, table) && SameLevel(l, table, l', table')
    ensures LevelReady(l', table')
  {
    forall f' | f' in LevelFrames(l')
      ensures IdsIn(f'.dims, table') && f'.totals.Shaped()
    {
      if f' in l'.frames {
        var i :| 0 <= i < |l'.frames| && l'.frames[i] == f';
        assert SameFrame(l.frames[i], table, l'.frames[i], table');
        assert l.frames[i] in LevelFrames(l);
      } else {
        assert SameFrame(Pending(l)[0], table, Pending(l')[0], table');
        assert Pending(l)[0] in LevelFrames(l);
      }
    }
    if l'.pending.Some? { assert SameFrame(Pending(l)[0], table, Pending(l')[0], table'); }
  }

  ghost predicate RenumberedLevel(l: Level, remap: seq<nat>, l': Level)
  {
    && (forall f :: f in LevelFrames(l) ==> forall i :: 0 <= i < |f.dims| ==> f.dims[i].id < |remap|)
    && |l'.frames| == |l.frames|
    && (forall j :: 0 <= j < |l.frames| ==> l.frames[j] in LevelFrames(l) && l'.frames[j] == Renumbered(l.frames[j], remap))
    && l'.pending == if l.pending.Some? then Some(Renumbered(l.pending.value, remap)) else None
  }

  lemma LevelSame(h: History, l: Level, used: seq<bool>, remap: seq<nat>, h': History, l': Level)
    requires IdsKnown(h) && KeepsKeys(used, h.table, remap, h'.table)
    requires forall f :: f in LevelFrames(l) ==> f in AllFrames(h)
    requires forall id :: 0 <= id < |h.table| ==> (used[id] <==> AnyUses(AllFrames(h), id))
    requires RenumberedLevel(l, remap, l')
    ensures (forall f :: f in LevelFrames(l) ==> IdsIn(f.dims, h.table)) && SameLevel(l, h.table, l', h'.table)
  {
    forall f | f in LevelFrames(l)
      ensures SameFrame(f, h.table, Renumbered(f, remap), h'.table)
    {
      forall i | 0 <= i < |f.dims|
        ensures used[f.dims[i].id]
      {
        assert FrameUses(f, f.dims[i].id);
      }
      RenumberedSame(f, used, h.table, remap, h'.table);
    }
  }

  lemma RenumberedLean(l: Level, remap: seq<nat>, l': Level, f': Frame)
    requires RenumberedLevel(l, remap, l') && f' in LevelFrames(l')
    ensures DistinctIds(f'.dims)
  {
    var f: Frame;
    if f' in l'.frames {
      var j :| 0 <= j < |l'.frames| && l'.frames[j] == f';
      f := l.frames[j];
    } else {
      f := l.pending.value;
      assert Pending(l)[0] in LevelFrames(l);
    }
    AddDimsDistinct([], Renumber(f.dims, remap));
  }

  lemma RenumberedIn(h: History, remap: seq<nat>, h': History, f: Frame)
    requires RenumberedLevel(h.l0, remap, h'.l0) && RenumberedLevel(h.l1, remap, h'.l1) && RenumberedLevel(h.l2, remap, h'.l2)
    requires f in AllFrames(h)
    ensures (forall i :: 0 <= i < |f.dims| ==> f.dims[i].id < |remap|) && Renumbered(f, remap) in AllFrames(h')
  {
    if f in LevelFrames(h.l0) { RenumberedInLevel(h.l0, remap, h'.l0, f); }
    else if f in LevelFrames(h.l1) { RenumberedInLevel(h.l1, remap, h'.l1, f); }
    else { RenumberedInLevel(h.l2, remap, h'.l2, f); }
  }

  lemma RenumberedInLevel(l: Level, remap: seq<nat>, l': Level, f: Frame)
    requires RenumberedLevel(l, remap, l') && f in LevelFrames(l)
    ensures Renumbered(f, remap) in LevelFrames(l')
  {
    if f in l.frames {
      var j :| 0 <= j < |l.frames| && l.frames[j] == f;
      assert l'.frames[j] in LevelFrames(l');
    } else {
      assert Pending(l')[0] in LevelFrames(l');
    }
  }

  // ---- recording keeps the history in order ----

  lemma GrownReady(l: Level, table: seq<string>, grown: seq<string>)
    requires LevelReady(l, table) && table <= grown
    ensures LevelReady(l, grown)
  {
  }

  lemma PushReady(l: Level, cap: nat, f: Frame, table: seq<string>)
    requires LevelReady(l, table) && IdsIn(f.dims, table) && f.totals.Shaped()
    ensures LevelReady(PushFrame(l, cap, f), table)
  {
    forall x | x in LevelFrames(PushFrame(l, cap, f))
      ensures IdsIn(x.dims, table) && x.totals.Shaped()
    {
      assert x in Last(l.frames + [f], cap) ==> x in l.frames + [f];
      assert x == f || x in LevelFrames(l);
    }
  }

  lemma AddReady(l: Level, step: Step, cap: nat, f: Frame, table: seq<string>)
    requires LevelReady(l, table) && IdsIn(f.dims, table) && f.totals.Shaped() && f.start >= 0 && ShapedPending(l)
    ensures LevelReady(AddFrame(l, step, cap, f).0, table)
    ensures var done := AddFrame(l, step, cap, f).1;
            done.Some? ==> done == l.pending && done.value in LevelFrames(l)
  {
    var start := Floor(f.start, step);
    var base := if l.pending.Some? && l.pending.value.start == start then l.pending.value else NewFrame(start);
    assert l.pending.Some? ==> l.pending.value in LevelFrames(l);
    AddDimsByKey(base.dims, f.dims, table);
    if l.pending.Some? && l.pending.value.start != start {
      PushReady(l, cap, l.pending.value, table);
    }
  }

  lemma RecordSane(h: History, inp: Input, max: nat)
    requires Sane(h, max) && Ready(h) && WellRead(inp)
    ensures Sane(Record(h, inp, max), max)
  {
    hide LevelReady, TableOk, IdsKnown, RollUp, Diff;
    NewFrameRepsSample(h, inp, max);
    var g := Diff(h, inp, max);
    var f := Frame(inp.end - SAMPLE_STEP, g.totals, g.dims);
    LevelsReady(h, f, g.table);
  }

  /** One sampling, put together. */
  lemma SampleDone(h: History, mid: History, inp: Input, max: nat)
    requires Sane(h, max) && Ready(h) && Sane(mid, max) && Ready(mid) && WellRead(inp)
    requires if Overflows(h, inp.cur, max) then Compacted(h, mid) else mid == h
    ensures GatherOk(Diff(mid, inp, max), max)
    ensures SampleStep(h, mid, inp, SampleOf(mid, inp, max), Record(mid, inp, max), max)
    ensures Sane(Record(mid, inp, max), max)
  {
    hide Sane, Compacted, Overflows, Ready, Record, TableOk;
    SaneIsReady(mid, max);
    NewFrameRepsSample(mid, inp, max);
    RecordSane(mid, inp, max);
  }

  lemma IsRecord(h: History, inp: Input, max: nat, h': History)
    requires Ready(h) && WellRead(inp)
    requires var g := Diff(h, inp, max);
             && g.totals.Shaped()
             && h'.table == g.table && h'.ids == g.ids && h'.prev == inp.cur
             && h'.l0 == PushFrame(h.l0, CapOf(0), Frame(inp.end - SAMPLE_STEP, g.totals, g.dims))
             && (h'.l1, h'.l2) == RollUp(h.l1, h.l2, Frame(inp.end - SAMPLE_STEP, g.totals, g.dims))
    ensures h' == Record(h, inp, max)
  {
  }

  lemma LevelsReady(h: History, f: Frame, table: seq<string>)
    requires LevelReady(h.l0, h.table) && LevelReady(h.l1, h.table) && LevelReady(h.l2, h.table)
    requires h.table <= table && IdsIn(f.dims, table) && f.totals.Shaped() && f.start >= 0
    requires ShapedPending(h.l1) && ShapedPending(h.l2)
    ensures LevelReady(PushFrame(h.l0, CapOf(0), f), table)
    ensures LevelReady(RollUp(h.l1, h.l2, f).0, table) && LevelReady(RollUp(h.l1, h.l2, f).1, table)
  {
    GrownReady(h.l0, h.table, table);
    GrownReady(h.l1, h.table, table);
    GrownReady(h.l2, h.table, table);
    PushReady(h.l0, CapOf(0), f, table);
    AddReady(h.l1, StepOf(1), CapOf(1), f, table);
    var (_, done) := AddFrame(h.l1, StepOf(1), CapOf(1), f);
    if done.Some? { AddReady(h.l2, StepOf(2), CapOf(2), done.value, table); }
  }

  // ---- the covered seconds of a frame ----

  function Clamp(x: real, lo: real, hi: real): real { if x < lo then lo else if x > hi then hi else x }

  /** Seconds between two readings, at least one and at most a step, rounded to the nearest. */
  function SecsCovered(readAt: real, lastRead: real): (r: nat)
    ensures 1 <= r <= SAMPLE_STEP
    ensures readAt - lastRead >= 10.0 ==> r == 10
    ensures readAt - lastRead <= 1.0 ==> r == 1
    ensures 1.0 <= readAt - lastRead <= 10.0 ==> -0.5 < r as real - (readAt - lastRead) <= 0.5
  {
    (Clamp(readAt - lastRead, 1.0, SAMPLE_STEP as real) + 0.5).Floor
  }

  lemma UnknownSoFar(ids: map<string, nat>, keys: seq<string>, n: nat)
    requires NoRepeats(keys) && n < |keys|
    ensures |set k | k in keys[..n + 1] && k !in ids| == |set k | k in keys[..n] && k !in ids| + (if keys[n] in ids then 0 else 1)
  {
    var before := set k | k in keys[..n] && k !in ids;
    var after := set k | k in keys[..n + 1] && k !in ids;
    assert keys[..n + 1] == keys[..n] + [keys[n]];
    assert keys[n] !in keys[..n];
    assert after == if keys[n] in ids then before else before + {keys[n]};
  }

  lemma AllReadShaped(h: History, max: nat)
    requires Sane(h, max)
    ensures FramesShaped(FramesRead(h, 0)) && FramesShaped(FramesRead(h, 1)) && FramesShaped(FramesRead(h, 2))
  {
    forall level: nat, i | level < LEVELS && 0 <= i < |FramesRead(h, level)|
      ensures FramesRead(h, level)[i].totals.Shaped()
    {
      var f := FramesRead(h, level)[i];
      assert f in LevelFrames(h.l0) || f in LevelFrames(h.l1) || f in LevelFrames(h.l2);
    }
  }

  lemma PlaceOneMore(slots: seq<Slot>, fs: seq<Frame>, f: Frame, start: int, step: Step)
    requires SlotsShaped(slots) && FramesShaped(fs) && f.totals.Shaped()
    ensures FramesShaped(fs + [f]) && PlaceAll(slots, fs + [f], start, step) == Place(PlaceAll(slots, fs, start, step), f, start, step)
  {
    assert (fs + [f])[..|fs|] == fs;
  }

  /** The placing loop of the report. */
  method PlaceFrames(slots: seq<Slot>, fs: seq<Frame>, start: int, step: Step) returns (r: seq<Slot>)
    requires SlotsShaped(slots) && FramesShaped(fs)
    ensures r == PlaceAll(slots, fs, start, step)
  {
    r := slots;
    var i := 0;
    while i < |fs|
      invariant 0 <= i <= |fs| && FramesShaped(fs[..i]) && SlotsShaped(r)
      invariant r == PlaceAll(slots, fs[..i], start, step)
    {
      PlaceOneMore(slots, fs[..i], fs[i], start, step);
      assert fs[..i + 1] == fs[..i] + [fs[i]];
      r := Place(r, fs[i], start, step);
      i := i + 1;
    }
    assert fs[..i] == fs;
  }

  lemma LevelShaped(l: Level, table: seq<string>)
    requires LevelReady(l, table)
    ensures FramesShaped(l.frames) && ShapedPending(l)
  {
    forall i | 0 <= i < |l.frames|
      ensures l.frames[i].totals.Shaped()
    {
      assert l.frames[i] in LevelFrames(l);
    }
    if l.pending.Some? { assert l.pending.value in LevelFrames(l); }
  }

  lemma LevelsShaped(h: History, max: nat)
    requires Sane(h, max)
    ensures FramesShaped(h.l0.frames) && FramesShaped(h.l1.frames) && FramesShaped(h.l2.frames)
    ensures ShapedPending(h.l0) && ShapedPending(h.l1) && ShapedPending(h.l2)
  {
    LevelShaped(h.l0, h.table);
    LevelShaped(h.l1, h.table);
    LevelShaped(h.l2, h.table);
  }

  /** The summing loop of the report: counters of every point with data, and what
      every dimension id counted. */
  method TotalSlots(slots: seq<Slot>) returns (total: Totals, dimTotals: map<nat, DimCounts>)
    requires SlotsShaped(slots)
    ensures total == TotalOf(slots) && dimTotals == DimTotalOf(slots)
  {
    total, dimTotals := ZERO_TOTALS, map[];
    var i := 0;
    while i < |slots|
      invariant 0 <= i <= |slots| && total.Shaped()
      invariant total == TotalOf(slots[..i]) && dimTotals == DimTotalOf(slots[..i])
    {
      assert slots[..i + 1][..i] == slots[..i];
      if slots[i].present {
        total := AddTotals(total, slots[i].frame.totals);
        var ds := slots[i].frame.dims;
        var j := 0;
        while j < |ds|
          invariant 0 <= j <= |ds|
          invariant dimTotals == AddIds(DimTotalOf(slots[..i]), ds[..j])
        {
          assert ds[..j + 1][..j] == ds[..j];
          dimTotals := AddId(dimTotals, ds[j]);
          j := j + 1;
        }
        assert ds[..j] == ds;
      }
      i := i + 1;
    }
    assert slots[..i] == slots;
  }

  /** The counters of a saved frame are arrays of fixed size. */
  ghost predicate SavedShaped(s: Saved) {
    forall f :: f in LevelFrames(s.l0) + LevelFrames(s.l1) + LevelFrames(s.l2) ==> f.totals.Shaped()
  }

  lemma RestoredReady(l: Level, step: Step, cap: nat, table: seq<string>, max: nat)
    requires forall f :: f in LevelFrames(l) ==> f.totals.Shaped()
    ensures LevelReady(Restored(l, step, cap, table, max), table)
  {
    var r := Restored(l, step, cap, table, max);
    forall f | f in LevelFrames(r)
      ensures IdsIn(f.dims, table) && f.totals.Shaped()
    {
      RestoredValid(l, step, cap, table, max, f);
    }
  }

  lemma LoadedSane(s: Saved, max: nat, h': History)
    requires SavedShaped(s) && |s.dims| <= max
    requires IdsKnown(Loaded(s, max)) && Compacted(Loaded(s, max), h')
    ensures Sane(h', max)
  {
    var h := Loaded(s, max);
    RestoredReady(s.l0, StepOf(0), CapOf(0), s.dims, max);
    RestoredReady(s.l1, StepOf(1), CapOf(1), s.dims, max);
    RestoredReady(s.l2, StepOf(2), CapOf(2), s.dims, max);
    SameLevelReady(h.l0, h.table, h'.l0, h'.table);
    SameLevelReady(h.l1, h.table, h'.l1, h'.table);
    SameLevelReady(h.l2, h.table, h'.l2, h'.table);
  }

  class TrafficStats {
    const max: nat
    const level0: HistoryLevel
    const level1: HistoryLevel
    const level2: HistoryLevel
    var dims: seq<string>
    var dimIDs: map<string, nat>
    var prev: Snapshot
    var lastRead: real

    constructor (max: nat, now: real)
      ensures this.max == max && Valid() && fresh(level0) && fresh(level1) && fresh(level2)
      ensures Value() == EMPTY_HISTORY && lastRead == now
    {
      this.max := max;
      level0 := new HistoryLevel(StepOf(0), CapOf(0));
      level1 := new HistoryLevel(StepOf(1), CapOf(1));
      level2 := new HistoryLevel(StepOf(2), CapOf(2));
      dims, dimIDs, prev, lastRead := [], map[], ZERO_SNAPSHOT, now;
    }

    function Value(): History
      reads this, level0, level1, level2
    {
      History(dims, dimIDs, prev, level0.Value(), level1.Value(), level2.Value())
    }

    ghost predicate Shape()
      reads this
    {
      && level0 != level1 && level0 != level2 && level1 != level2
      && level0.step == StepOf(0) && level0.cap == CapOf(0)
      && level1.step == StepOf(1) && level1.cap == CapOf(1)
      && level2.step == StepOf(2) && level2.cap == CapOf(2)
    }

    ghost predicate Valid()
      reads this, level0, level1, level2
    {
      Shape() && Sane(Value(), max)
    }

    /** The object becomes some compaction of what `Loaded` makes of the file; a file
        whose table exceeds `max` leaves it as it was. */
    method Load(saved: Saved)
      requires Valid() && Value() == EMPTY_HISTORY
      requires SavedShaped(saved)
      modifies this, level0, level1, level2
      ensures Valid() && IdsKnown(Loaded(saved, max))
      ensures if |saved.dims| > max then Value() == EMPTY_HISTORY else Compacted(Loaded(saved, max), Value())
    {
      LoadedIdsKnown(saved, max);
      if |saved.dims| > max {
        return;
      }
      level0.Restore(saved.l0, saved.dims, max);
      level1.Restore(saved.l1, saved.dims, max);
      level2.Restore(saved.l2, saved.dims, max);
      dims := saved.dims;
      assert Value() == Loaded(saved, max);
      Compact();
      LoadedSane(saved, max, Value());
    }

    /** Afterwards the key has an id: its old one, or the length the table had. */
    method DimID(key: string) returns (id: nat)
      requires TableOk(dims, dimIDs)
      modifies this`dims, this`dimIDs
      ensures TableOk(dims, dimIDs) && key in dimIDs && id == dimIDs[key]
      ensures if key in old(dimIDs) then dims == old(dims) && dimIDs == old(dimIDs)
              else id == |old(dims)| && dims == old(dims) + [key] && dimIDs == old(dimIDs)[key := id]
    {
      if key in dimIDs {
        return dimIDs[key];
      }
      id := |dims|;
      dims := dims + [key];
      dimIDs := dimIDs[key := id];
    }

    /** The loop over the keys computes `Diff`, the object's table being the gathering's. */
    method DiffInto(inp: Input) returns (totals: Totals, ds: seq<DimFrame>)
      requires prev.Shaped() && inp.cur.Shaped() && TableOk(dims, dimIDs) && |dims| <= max
      modifies this`dims, this`dimIDs
      ensures Gather(totals, ds, dims, dimIDs) == old(Diff(Value(), inp, max))
    {
      ghost var g0 := Gather(DeltaTotals(inp.cur, prev, inp.secs), [], dims, dimIDs);
      totals, ds := DeltaTotals(inp.cur, prev, inp.secs), [];
      var n := 0;
      while n < |inp.keys|
        invariant 0 <= n <= |inp.keys| && prev == old(prev)
        invariant TableOk(dims, dimIDs) && |dims| <= max
        invariant Gather(totals, ds, dims, dimIDs) == GatherKeys(g0, inp.keys[..n], inp.cur, prev, max)
      {
        assert inp.keys[..n + 1][..n] == inp.keys[..n];
        var k := inp.keys[n];
        n := n + 1;
        var d := DeltaDim(ReadingOf(inp.cur.dims, k), ReadingOf(prev.dims, k));
        if IsPort(k) {
          totals := AddPort(totals, d);
        }
        if d == ZERO_DIM || (|dims| >= max && k !in dimIDs) {
          continue;
        }
        var id := DimID(k);
        ds := ds + [DimFrame(id, d)];
      }
      assert inp.keys[..n] == inp.keys;
    }

    /** One reading of the counters becomes one frame: compaction first where the table
        would overflow, then the differences, the finest ring, and the coarser ones. */
    method Sample(cur: Snapshot, keys: seq<string>, end: nat, readAt: real) returns (ghost mid: History, ghost s: Sample)
      requires Valid() && WellRead(Input(cur, keys, end, 0))
      modifies this, level0, level1, level2
      ensures Valid() && lastRead == readAt
      ensures SampleStep(old(Value()), mid, Input(cur, keys, end, SecsCovered(readAt, old(lastRead))), s, Value(), max)
    {
      hide Sane, Compacted, TableOk, SampleStep, IdsKnown, RollUp, Record, GatherOk;
      var inp := Input(cur, keys, end, SecsCovered(readAt, lastRead));
      ghost var h := Value();
      SaneIsReady(h, max);
      var unknown := CountUnknown(cur, keys);
      if unknown > 0 && |dims| + unknown > max {
        Compact();
        CompactedSane(h, Value(), max);
      }
      mid := Value();
      SaneIsReady(mid, max);
      SampleDone(h, mid, inp, max);
      s := SampleOf(mid, inp, max);
      var totals, ds := DiffInto(inp);
      ShapeKept(mid, inp, max);
      prev := cur;
      lastRead := readAt;
      Store(Frame(end - SAMPLE_STEP, totals, ds));
      IsRecord(mid, inp, max, Value());
    }

    /** The three levels take a frame as `PushFrame` and `RollUp` say. */
    method Store(f: Frame)
      requires Shape() && f.totals.Shaped() && f.start >= 0
      requires ShapedPending(level1.Value()) && ShapedPending(level2.Value())
      requires level1.pending.Some? ==> level1.pending.value.start >= 0
      modifies level0, level1, level2
      ensures level0.Value() == PushFrame(old(level0.Value()), CapOf(0), f)
      ensures (level1.Value(), level2.Value()) == RollUp(old(level1.Value()), old(level2.Value()), f)
    {
      level0.Push(f);
      var done := level1.Add(f);
      if done.Some? {
        var _ := level2.Add(done.value);
      }
    }

    /** How many of the read dimensions the table does not know yet. */
    method CountUnknown(cur: Snapshot, keys: seq<string>) returns (unknown: nat)
      requires WellRead(Input(cur, keys, SAMPLE_STEP, 0))
      ensures unknown == Unknown(dimIDs, cur)
    {
      unknown := 0;
      var n := 0;
      while n < |keys|
        invariant 0 <= n <= |keys|
        invariant unknown == |set k | k in keys[..n] && k !in dimIDs|
      {
        UnknownSoFar(dimIDs, keys, n);
        if keys[n] !in dimIDs {
          unknown := unknown + 1;
        }
        n := n + 1;
      }
      assert (set k | k in keys[..n] && k !in dimIDs) == (set k | k in cur.dims && k !in dimIDs);
    }

    /** The points of a range: the frames of its level, its pending frame, and for the
        hours what level 1 has not yet passed on. */
    method PlaceRange(rng: Range, now: nat) returns (slots: seq<Slot>)
      requires Valid() && rng.level < LEVELS && FramesShaped(FramesRead(Value(), rng.level))
      ensures slots == SlotsOf(Value(), rng, now)
    {
      hide Sane, Times, Mod, WindowEnd, Place, PlaceAll;
      var level, n := rng.level, rng.points;
      var lvl := if level == 0 then level0 else if level == 1 then level1 else level2;
      var step := lvl.step;
      var start := WindowEnd(now, step) - Times(n, step);
      LevelsShaped(Value(), max);
      slots := PlaceFrames(EmptySlots(n), lvl.frames, start, step);
      ghost var read := lvl.frames;
      if lvl.pending.Some? {
        PlaceOneMore(EmptySlots(n), read, lvl.pending.value, start, step);
        slots := Place(slots, lvl.pending.value, start, step);
        read := read + [lvl.pending.value];
      }
      if level == 2 && level1.pending.Some? {
        PlaceOneMore(EmptySlots(n), read, level1.pending.value, start, step);
        slots := Place(slots, level1.pending.value, start, step);
        read := read + [level1.pending.value];
      }
      assert read == FramesRead(Value(), level);
    }

    /** `BuildReport` on the object's value, or an error where `RangeOf` knows no range. */
    method Report(name: string, now: nat) returns (r: Result<Report, string>)
      requires Valid()
      ensures FramesShaped(FramesRead(Value(), 0)) && FramesShaped(FramesRead(Value(), 1)) && FramesShaped(FramesRead(Value(), 2))
      ensures RangeOf(name).None? <==> r.Err?
      ensures RangeOf(name).Some? ==>
                RangeOf(name).value.level < LEVELS && RangeOf(name).value.points > 0
                && r == Ok(BuildReport(Value(), RangeOf(name).value, now))
    {
      hide Sane, Times, WindowEnd, SlotsOf, TotalOf, DimTotalOf, Points, FramesRead, FramesShaped;
      AllReadShaped(Value(), max);
      var rng := RangeOf(name);
      if rng.None? {
        return Err("unknown range: use 1h, 6h, 24h or 7d");
      }
      RangesFit(name);
      var Range(level, n) := rng.value;
      var slots := PlaceRange(rng.value, now);
      var step := StepOf(level);
      var total, dimTotals := TotalSlots(slots);
      var last := slots[n - 1];
      var lastSpan := if last.present then SecsOf(last.frame.totals, step) else 0;
      r := Ok(TrafficReport.Report(step, WindowEnd(now, step) - Times(n, step), lastSpan, Points(slots, step), total, dimTotals));
    }

    /** Leaves a history that is a compaction of the one before, whatever the table
        lists twice (a loaded one may). */
    method Compact()
      requires Shape() && IdsKnown(Value())
      modifies this, level0, level1, level2
      ensures IdsKnown(old(Value())) && Compacted(old(Value()), Value())
    {
      ghost var h := Value();
      var used := seq(|dims|, _ => false);
      used := level0.Mark(used);
      used := level1.Mark(used);
      used := level2.Mark(used);
      MarkedAll(h, used);
      var remap, table, ids := NumberUsed(used, dims);
      level0.Remap(remap);
      level1.Remap(remap);
      level2.Remap(remap);
      dims, dimIDs := table, ids;
      RenumberedIsCompacted(h, used, remap, Value());
    }
  }

  lemma MarkedAll(h: History, used: seq<bool>)
    requires |used| == |h.table|
    requires forall id :: 0 <= id < |used| ==>
      (used[id] <==> AnyUses(LevelFrames(h.l0), id) || AnyUses(LevelFrames(h.l1), id) || AnyUses(LevelFrames(h.l2), id))
    ensures forall id :: 0 <= id < |used| ==> (used[id] <==> AnyUses(AllFrames(h), id))
  {
  }
}
