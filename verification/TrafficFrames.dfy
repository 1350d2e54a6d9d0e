/** Frames of the traffic history: counters, per-dimension shares, and merging.

    A frame refers to a dimension by its id in the dimension table. What a frame
    means does not depend on the numbering: `LoadOf` resolves the ids, and every
    operation on frames is related to an operation on loads. */
module TrafficFrames {

  // Sizes of the fixed counter arrays: status classes, HTTP versions, block
  // reasons (blockNone included) and latency buckets.
  const STATUS := 4
  const PROTOS := 3
  const REASONS := 10
  const BUCKETS := 12

  type Vec = seq<nat>

  datatype Totals = Totals(
    secs: nat, bytesIn: nat, bytesOut: nat, requests: nat,
    status: Vec, proto: Vec, blocked: Vec, latency: Vec,
    conns: nat, active: nat)
  {
    predicate Shaped() {
      |status| == STATUS && |proto| == PROTOS && |blocked| == REASONS && |latency| == BUCKETS
    }
  }

  datatype DimCounts = DimCounts(bytesIn: nat, bytesOut: nat, count: nat, errs: nat, active: nat)

  datatype DimFrame = DimFrame(id: nat, c: DimCounts)

  datatype Frame = Frame(start: int, totals: Totals, dims: seq<DimFrame>)

  function Zeros(n: nat): Vec { seq(n, _ => 0) }

  const ZERO_TOTALS := Totals(0, 0, 0, 0, Zeros(STATUS), Zeros(PROTOS), Zeros(REASONS), Zeros(BUCKETS), 0, 0)
  const ZERO_DIM := DimCounts(0, 0, 0, 0, 0)

  function Max(a: nat, b: nat): nat { if a >= b then a else b }

  function AddVec(a: Vec, b: Vec): Vec
    requires |a| == |b|
  {
    seq(|a|, i requires 0 <= i < |a| => a[i] + b[i])
  }

  /** addCounters: every counter is added, except the open connections, of which
      the larger number is kept. */
  function AddTotals(a: Totals, b: Totals): (r: Totals)
    requires a.Shaped() && b.Shaped()
    ensures r.Shaped()
  {
    Totals(a.secs + b.secs, a.bytesIn + b.bytesIn, a.bytesOut + b.bytesOut, a.requests + b.requests,
           AddVec(a.status, b.status), AddVec(a.proto, b.proto), AddVec(a.blocked, b.blocked), AddVec(a.latency, b.latency),
           a.conns + b.conns, Max(a.active, b.active))
  }

  function AddDimCounts(a: DimCounts, b: DimCounts): DimCounts {
    DimCounts(a.bytesIn + b.bytesIn, a.bytesOut + b.bytesOut, a.count + b.count, a.errs + b.errs, Max(a.active, b.active))
  }

  // ---- what a frame means, whatever its dimension ids ----

  type DimMap = map<string, DimCounts>

  datatype Load = Load(totals: Totals, dims: DimMap)

  const ZERO_LOAD := Load(ZERO_TOTALS, map[])

  predicate IdsIn(ds: seq<DimFrame>, table: seq<string>) {
    forall i :: 0 <= i < |ds| ==> ds[i].id < |table|
  }

  function AddKey(m: DimMap, k: string, c: DimCounts): DimMap {
    m[k := if k in m then AddDimCounts(m[k], c) else c]
  }

  /** The share of every dimension key in a list of entries: entries whose ids
      name the same key are added up. */
  function ByKey(ds: seq<DimFrame>, table: seq<string>): DimMap
    requires IdsIn(ds, table)
  {
    if |ds| == 0 then map[]
    else AddKey(ByKey(ds[..|ds| - 1], table), table[ds[|ds| - 1].id], ds[|ds| - 1].c)
  }

  function LoadOf(f: Frame, table: seq<string>): Load
    requires IdsIn(f.dims, table)
  {
    Load(f.totals, ByKey(f.dims, table))
  }

  function Join(a: DimMap, b: DimMap): DimMap {
    map k | k in a.Keys + b.Keys ::
      if k in a && k in b then AddDimCounts(a[k], b[k]) else if k in a then a[k] else b[k]
  }

  function Combine(a: Load, b: Load): (r: Load)
    requires a.totals.Shaped() && b.totals.Shaped()
    ensures r.totals.Shaped()
  {
    Load(AddTotals(a.totals, b.totals), Join(a.dims, b.dims))
  }

  // ---- merging frames ----

  /** One step of the merge loop: the first entry with the same id takes the
      counts, otherwise the entry is appended. */
  function AddDim(ds: seq<DimFrame>, d: DimFrame): (r: seq<DimFrame>)
    ensures |ds| <= |r|
  {
    if |ds| == 0 then [d]
    else if ds[0].id == d.id then [DimFrame(d.id, AddDimCounts(ds[0].c, d.c))] + ds[1..]
    else [ds[0]] + AddDim(ds[1..], d)
  }

  function AddDims(ds: seq<DimFrame>, more: seq<DimFrame>): seq<DimFrame> {
    if |more| == 0 then ds
    else AddDim(AddDims(ds, more[..|more| - 1]), more[|more| - 1])
  }

  function Merged(f: Frame, g: Frame): Frame
    requires f.totals.Shaped() && g.totals.Shaped()
  {
    Frame(f.start, AddTotals(f.totals, g.totals), AddDims(f.dims, g.dims))
  }

  // ---- the merge loop, as the source runs it ----

  /** The inner loop of the merge: find the entry with d's id, or append d. */
  method MergeDim(ds: seq<DimFrame>, d: DimFrame) returns (r: seq<DimFrame>)
    ensures r == AddDim(ds, d)
  {
    var i := 0;
    while i < |ds| && ds[i].id != d.id
      invariant 0 <= i <= |ds|
      invariant AddDim(ds, d) == ds[..i] + AddDim(ds[i..], d)
    {
      assert ds[i..][1..] == ds[i + 1..];
      assert ds[..i] + ([ds[i]] + AddDim(ds[i + 1..], d)) == ds[..i + 1] + AddDim(ds[i + 1..], d);
      i := i + 1;
    }
    if i < |ds| {
      assert ds[i..][1..] == ds[i + 1..];
      r := ds[i := DimFrame(d.id, AddDimCounts(ds[i].c, d.c))];
      assert r == ds[..i] + ([r[i]] + ds[i + 1..]);
    } else {
      assert ds[..i] == ds && ds[i..] == [];
      r := ds + [d];
    }
  }

  method MergeDims(ds: seq<DimFrame>, more: seq<DimFrame>) returns (r: seq<DimFrame>)
    ensures r == AddDims(ds, more)
  {
    r := ds;
    var n := 0;
    while n < |more|
      invariant 0 <= n <= |more|
      invariant r == AddDims(ds, more[..n])
    {
      assert more[..n + 1][..n] == more[..n];
      r := MergeDim(r, more[n]);
      n := n + 1;
    }
    assert more[..n] == more;
  }

  method Merge(f: Frame, g: Frame) returns (r: Frame)
    requires f.totals.Shaped() && g.totals.Shaped()
    ensures r == Merged(f, g)
  {
    var ds := MergeDims(f.dims, g.dims);
    r := Frame(f.start, AddTotals(f.totals, g.totals), ds);
  }

  // ---- loads form a commutative monoid ----

  lemma AddTotalsLaws(a: Totals, b: Totals, c: Totals)
    requires a.Shaped() && b.Shaped() && c.Shaped()
    ensures AddTotals(AddTotals(a, b), c) == AddTotals(a, AddTotals(b, c))
    ensures AddTotals(a, b) == AddTotals(b, a)
    ensures AddTotals(ZERO_TOTALS, a) == a
  {
  }

  lemma JoinAssociative(a: DimMap, b: DimMap, c: DimMap)
    ensures Join(Join(a, b), c) == Join(a, Join(b, c))
  {
    var l, r := Join(Join(a, b), c), Join(a, Join(b, c));
    assert l.Keys == r.Keys;
    forall k | k in l
      ensures l[k] == r[k]
    {
      JoinAt(a, b, k);
      JoinAt(b, c, k);
      JoinAt(Join(a, b), c, k);
      JoinAt(a, Join(b, c), k);
    }
  }

  lemma JoinAt(a: DimMap, b: DimMap, k: string)
    ensures k in Join(a, b) <==> k in a || k in b
    ensures k in a && k in b ==> Join(a, b)[k] == AddDimCounts(a[k], b[k])
    ensures k in a && k !in b ==> Join(a, b)[k] == a[k]
    ensures k !in a && k in b ==> Join(a, b)[k] == b[k]
  {
  }

  lemma JoinLaws(a: DimMap, b: DimMap)
    ensures Join(a, b) == Join(b, a)
    ensures Join(map[], a) == a
  {
    assert Join(a, b).Keys == Join(b, a).Keys;
    assert Join(map[], a).Keys == a.Keys;
  }

  /** Loads can be added in any order and grouping, and the empty load adds nothing. */
  lemma CombineLaws(a: Load, b: Load, c: Load)
    requires a.totals.Shaped() && b.totals.Shaped() && c.totals.Shaped()
    ensures Combine(Combine(a, b), c) == Combine(a, Combine(b, c))
    ensures Combine(a, b) == Combine(b, a)
    ensures ZERO_TOTALS.Shaped() && Combine(ZERO_LOAD, a) == a
    ensures Combine(a, ZERO_LOAD) == a
  {
    AddTotalsLaws(a.totals, b.totals, c.totals);
    AddTotalsLaws(a.totals, ZERO_TOTALS, ZERO_TOTALS);
    JoinAssociative(a.dims, b.dims, c.dims);
    JoinLaws(a.dims, b.dims);
    JoinLaws(a.dims, map[]);
  }

  // ---- merging frames adds their loads ----

  lemma AddKeySwap(m: DimMap, k1: string, c1: DimCounts, k2: string, c2: DimCounts)
    ensures AddKey(AddKey(m, k1, c1), k2, c2) == AddKey(AddKey(m, k2, c2), k1, c1)
  {
    if k1 == k2 { AddKeyTwice(m, k1, c1, c2); AddKeyTwice(m, k1, c2, c1); }
  }

  lemma AddKeyTwice(m: DimMap, k: string, c1: DimCounts, c2: DimCounts)
    ensures AddKey(AddKey(m, k, c1), k, c2) == AddKey(m, k, AddDimCounts(c1, c2))
  {
  }

  /** Taking the first entry out of the list, rather than the last, gives the same shares. */
  lemma {:induction false} ByKeyFirst(ds: seq<DimFrame>, table: seq<string>)
    requires IdsIn(ds, table) && |ds| > 0
    ensures ByKey(ds, table) == AddKey(ByKey(ds[1..], table), table[ds[0].id], ds[0].c)
  {
    var n := |ds|;
    if n > 1 {
      ByKeyFirst(ds[..n - 1], table);
      assert ds[..n - 1][1..] == ds[1..][..n - 2];
      AddKeySwap(ByKey(ds[1..][..n - 2], table), table[ds[0].id], ds[0].c, table[ds[n - 1].id], ds[n - 1].c);
    } else {
      assert ds[..n - 1] == ds[1..];
    }
  }

  lemma {:induction false} AddDimByKey(ds: seq<DimFrame>, d: DimFrame, table: seq<string>)
    requires IdsIn(ds, table) && d.id < |table|
    ensures IdsIn(AddDim(ds, d), table)
    ensures ByKey(AddDim(ds, d), table) == AddKey(ByKey(ds, table), table[d.id], d.c)
  {
    if |ds| == 0 {
      assert ByKey([d][..0], table) == map[];
    } else {
      ByKeyFirst(ds, table);
      var r := AddDim(ds, d);
      var rest := ByKey(ds[1..], table);
      if ds[0].id == d.id {
        assert r[1..] == ds[1..];
        ByKeyFirst(r, table);
        AddKeyTwice(rest, table[d.id], ds[0].c, d.c);
      } else {
        AddDimByKey(ds[1..], d, table);
        assert r[1..] == AddDim(ds[1..], d);
        ByKeyFirst(r, table);
        AddKeySwap(rest, table[d.id], d.c, table[ds[0].id], ds[0].c);
      }
    }
  }

  lemma JoinAddKey(a: DimMap, b: DimMap, k: string, c: DimCounts)
    ensures AddKey(Join(a, b), k, c) == Join(a, AddKey(b, k, c))
  {
    assert AddKey(Join(a, b), k, c).Keys == Join(a, AddKey(b, k, c)).Keys;
  }

  lemma {:induction false} AddDimsByKey(ds: seq<DimFrame>, more: seq<DimFrame>, table: seq<string>)
    requires IdsIn(ds, table) && IdsIn(more, table)
    ensures IdsIn(AddDims(ds, more), table)
    ensures ByKey(AddDims(ds, more), table) == Join(ByKey(ds, table), ByKey(more, table))
  {
    var n := |more|;
    if n == 0 {
      JoinLaws(ByKey(ds, table), map[]);
    } else {
      AddDimsByKey(ds, more[..n - 1], table);
      AddDimByKey(AddDims(ds, more[..n - 1]), more[n - 1], table);
      JoinAddKey(ByKey(ds, table), ByKey(more[..n - 1], table), table[more[n - 1].id], more[n - 1].c);
    }
  }

  /** merge adds the load of one frame to the other's, whatever the dimension
      table, even one that lists a key twice. */
  lemma MergeAddsLoads(f: Frame, g: Frame, table: seq<string>)
    requires f.totals.Shaped() && g.totals.Shaped()
    requires IdsIn(f.dims, table) && IdsIn(g.dims, table)
    ensures IdsIn(Merged(f, g).dims, table) && Merged(f, g).totals.Shaped()
    ensures LoadOf(Merged(f, g), table) == Combine(LoadOf(f, table), LoadOf(g, table))
  {
    AddDimsByKey(f.dims, g.dims, table);
  }

  /** A table that only grew gives every frame the load it had. */
  lemma {:induction false} ByKeyGrown(ds: seq<DimFrame>, table: seq<string>, grown: seq<string>)
    requires IdsIn(ds, table) && table <= grown
    ensures IdsIn(ds, grown) && ByKey(ds, grown) == ByKey(ds, table)
  {
    if |ds| > 0 {
      ByKeyGrown(ds[..|ds| - 1], table, grown);
    }
  }

  // ---- a frame lists a dimension once ----

  ghost predicate DistinctIds(ds: seq<DimFrame>) {
    forall i, j :: 0 <= i < j < |ds| ==> ds[i].id != ds[j].id
  }

  lemma {:induction false} AddDimDistinct(ds: seq<DimFrame>, d: DimFrame)
    requires DistinctIds(ds)
    ensures DistinctIds(AddDim(ds, d))
    ensures forall e :: e in AddDim(ds, d) ==> e.id == d.id || exists x :: x in ds && x.id == e.id
  {
    var r := AddDim(ds, d);
    if |ds| > 0 {
      if ds[0].id == d.id {
        assert r[1..] == ds[1..];
        assert forall e :: e in r ==> e == r[0] || e in ds[1..];
      } else {
        AddDimDistinct(ds[1..], d);
        assert r[1..] == AddDim(ds[1..], d);
        forall j | 0 < j < |r|
          ensures r[0].id != r[j].id
        {
          var e := r[1..][j - 1];
          if e.id != d.id {
            var x :| x in ds[1..] && x.id == e.id;
          }
        }
        forall e | e in r
          ensures e.id == d.id || exists x :: x in ds && x.id == e.id
        {
          if e == r[0] {
            assert ds[0] in ds;
          } else {
            assert e in AddDim(ds[1..], d);
            if e.id != d.id {
              var x :| x in ds[1..] && x.id == e.id;
              assert x in ds;
            }
          }
        }
      }
    }
  }

  lemma {:induction false} AddDimsDistinct(ds: seq<DimFrame>, more: seq<DimFrame>)
    requires DistinctIds(ds)
    ensures DistinctIds(AddDims(ds, more))
  {
    if |more| > 0 {
      AddDimsDistinct(ds, more[..|more| - 1]);
      AddDimDistinct(AddDims(ds, more[..|more| - 1]), more[|more| - 1]);
    }
  }

  /** So a frame has no more entries than the table has keys. */
  lemma DistinctFit(ds: seq<DimFrame>, n: nat)
    requires DistinctIds(ds) && forall i :: 0 <= i < |ds| ==> ds[i].id < n
    ensures |ds| <= n
  {
    var ids := IdSet(ds);
    assert ids <= UpTo(n);
    Contained(ids, UpTo(n));
  }

  ghost function UpTo(n: nat): (s: set<nat>)
    ensures |s| == n && forall i: nat :: i in s <==> i < n
  {
    if n == 0 then {} else UpTo(n - 1) + {n - 1}
  }

  lemma Contained(a: set<nat>, b: set<int>)
    requires forall x :: x in a ==> x in b
    ensures |a| <= |b|
    decreases |a|
  {
    if a != {} {
      var x :| x in a;
      Contained(a - {x}, b - {x});
    }
  }

  ghost function IdSet(ds: seq<DimFrame>): (r: set<nat>)
    ensures forall x :: x in r <==> exists i :: 0 <= i < |ds| && ds[i].id == x
    ensures DistinctIds(ds) ==> |r| == |ds|
  {
    if |ds| == 0 then {} else IdSet(ds[..|ds| - 1]) + {ds[|ds| - 1].id}
  }
}
