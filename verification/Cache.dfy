/** The response cache: a map, a recency list and a byte counter that must agree.

    On values the cache is the list of its entries, most recently used first. The
    class keeps the redundant structures of the source and is proved to step as the
    list does; what the list promises is proved over all runs of operations. */
module Cache {
  import opened Basics

  const ENTRY_OVERHEAD := 256

  type Header = seq<(string, seq<string>)>

  function ValuesSize(vs: seq<string>): nat {
    if |vs| == 0 then 0 else ValuesSize(vs[..|vs| - 1]) + |vs[|vs| - 1]| + 4
  }

  function HeaderSize(h: Header): nat {
    if |h| == 0 then 0 else HeaderSize(h[..|h| - 1]) + |h[|h| - 1].0| + ValuesSize(h[|h| - 1].1)
  }

  /** The bytes charged for an entry: a flat part, its key, its header and its body. */
  function SizeOf(key: string, h: Header, body: seq<int>): nat {
    ENTRY_OVERHEAD + |key| + |body| + HeaderSize(h)
  }

  // ---- the cache as a list ----

  datatype Stored = Stored(key: string, size: nat, expires: int, status: int, header: Header, body: seq<int>)

  type Recency = seq<Stored>

  function Bytes(c: Recency): nat { if |c| == 0 then 0 else Bytes(c[..|c| - 1]) + c[|c| - 1].size }

  /** The position of the key, or the length of the list. */
  function Find(c: Recency, key: string): (i: nat)
    ensures i <= |c|
    ensures i < |c| ==> c[i].key == key
    ensures forall j :: 0 <= j < i ==> c[j].key != key
  {
    if |c| == 0 then 0 else if c[0].key == key then 0 else 1 + Find(c[1..], key)
  }

  function Lookup(c: Recency, key: string): Option<Stored> {
    var i := Find(c, key);
    if i < |c| then Some(c[i]) else None
  }

  function Without<T>(c: seq<T>, i: nat): seq<T>
    requires i < |c|
  {
    c[..i] + c[i + 1..]
  }

  function Get(c: Recency, key: string, now: int): (Recency, Option<Stored>) {
    var i := Find(c, key);
    if i == |c| then (c, None)
    else if now > c[i].expires then (Without(c, i), None)
    else ([c[i]] + Without(c, i), Some(c[i]))
  }

  predicate Crowded(c: Recency, size: nat, max: nat, maxBytes: nat) {
    |c| >= max || Bytes(c) + size > maxBytes
  }

  /** The longest front that leaves room for one more entry of this size. */
  function Evict(c: Recency, size: nat, max: nat, maxBytes: nat): Recency {
    if |c| > 0 && Crowded(c, size, max, maxBytes) then Evict(c[..|c| - 1], size, max, maxBytes) else c
  }

  function Dropped(c: Recency, key: string): Recency {
    var i := Find(c, key);
    if i < |c| then Without(c, i) else c
  }

  function Put(c: Recency, e: Stored, max: nat, maxBytes: nat): Recency {
    if e.size > maxBytes then c
    else [e] + Evict(Dropped(c, e.key), e.size, max, maxBytes)
  }

  // ---- what the list promises ----

  predicate DistinctKeys(c: Recency) { forall i, j :: 0 <= i < j < |c| ==> c[i].key != c[j].key }

  predicate Within(c: Recency, max: nat, maxBytes: nat) { DistinctKeys(c) && |c| <= max && Bytes(c) <= maxBytes }

  lemma {:induction false} BytesConcat(a: Recency, b: Recency)
    ensures Bytes(a + b) == Bytes(a) + Bytes(b)
  {
    if |b| == 0 {
      assert a + b == a;
    } else {
      assert (a + b)[..|a + b| - 1] == a + b[..|b| - 1];
      BytesConcat(a, b[..|b| - 1]);
    }
  }

  lemma BytesOne(e: Stored)
    ensures Bytes([e]) == e.size
  {
    assert [e][..0] == [];
  }

  lemma BytesWithout(c: Recency, i: nat)
    requires i < |c|
    ensures Bytes(Without(c, i)) == Bytes(c) - c[i].size
  {
    hide Bytes;
    var front, back := c[..i], c[i + 1..];
    assert c == front + ([c[i]] + back);
    BytesConcat(front, [c[i]] + back);
    BytesConcat([c[i]], back);
    BytesConcat(front, back);
    BytesOne(c[i]);
  }

  lemma WithoutKeeps(c: Recency, i: nat)
    requires DistinctKeys(c) && i < |c|
    ensures DistinctKeys(Without(c, i))
    ensures Lookup(Without(c, i), c[i].key) == None
    ensures forall k :: k != c[i].key ==> Lookup(Without(c, i), k) == Lookup(c, k)
  {
    var w := Without(c, i);
    forall k | k != c[i].key
      ensures Lookup(w, k) == Lookup(c, k)
    {
      var j, j' := Find(c, k), Find(w, k);
      if j < |c| { assert w[if j < i then j else j - 1] == c[j]; }
      if j' < |w| { assert w[j'] == c[if j' < i then j' else j' + 1]; }
    }
  }

  /** Eviction keeps the front of the list, and no shorter front than it must: with
      one more entry kept the new one would not fit. */
  lemma {:induction false} EvictsOnlyASuffix(c: Recency, size: nat, max: nat, maxBytes: nat)
    requires size <= maxBytes && 0 < max
    ensures var kept := Evict(c, size, max, maxBytes);
            && kept <= c
            && !Crowded(kept, size, max, maxBytes)
            && (|kept| < |c| ==> Crowded(c[..|kept| + 1], size, max, maxBytes))
  {
    if |c| > 0 && Crowded(c, size, max, maxBytes) {
      EvictsOnlyASuffix(c[..|c| - 1], size, max, maxBytes);
      var kept := Evict(c, size, max, maxBytes);
      if |kept| < |c| - 1 {
        assert c[..|c| - 1][..|kept| + 1] == c[..|kept| + 1];
      } else {
        assert c[..|kept| + 1] == c;
      }
    }
  }

  lemma PrefixLookup(kept: Recency, c: Recency, key: string)
    requires kept <= c
    ensures Lookup(kept, key) == Lookup(c, key) || Lookup(kept, key) == None
  {
    var i, j := Find(kept, key), Find(c, key);
    if i < |kept| { assert c[i] == kept[i]; }
  }

  /** After a put both limits hold and the entry is first under its key, unless it
      exceeds the whole budget, in which case nothing has changed. */
  lemma PutStores(c: Recency, e: Stored, max: nat, maxBytes: nat)
    requires Within(c, max, maxBytes) && 0 < max
    ensures Within(Put(c, e, max, maxBytes), max, maxBytes)
    ensures e.size <= maxBytes ==> Put(c, e, max, maxBytes)[0] == e && Lookup(Put(c, e, max, maxBytes), e.key) == Some(e)
    ensures e.size > maxBytes ==> Put(c, e, max, maxBytes) == c
    ensures forall k :: k != e.key ==>
              Lookup(Put(c, e, max, maxBytes), k) == Lookup(c, k) || Lookup(Put(c, e, max, maxBytes), k) == None
  {
    if e.size <= maxBytes {
      var d := Dropped(c, e.key);
      var i := Find(c, e.key);
      if i < |c| { WithoutKeeps(c, i); BytesWithout(c, i); }
      EvictsOnlyASuffix(d, e.size, max, maxBytes);
      var kept := Evict(d, e.size, max, maxBytes);
      assert Put(c, e, max, maxBytes) == [e] + kept;
      BytesConcat([e], kept);
      assert [e][..0] == [];
      forall j | 0 <= j < |kept|
        ensures kept[j].key != e.key
      {
        assert kept[j] == d[j];
        AbsentKey(c, e.key, j);
      }
      forall k | k != e.key
        ensures Lookup([e] + kept, k) == Lookup(c, k) || Lookup([e] + kept, k) == None
      {
        PrefixLookup(kept, d, k);
        FrontLookup(e, kept, k);
      }
    }
  }

  lemma AbsentKey(c: Recency, key: string, j: nat)
    requires DistinctKeys(c) && j < |Dropped(c, key)|
    ensures Dropped(c, key)[j].key != key
  {
    var i := Find(c, key);
    if i < |c| {
      assert Dropped(c, key)[j] == c[if j < i then j else j + 1];
    }
  }

  lemma FrontLookup(e: Stored, rest: Recency, k: string)
    ensures Lookup([e] + rest, k) == if k == e.key then Some(e) else Lookup(rest, k)
  {
    assert ([e] + rest)[1..] == rest;
  }

  /** get answers with what is stored under the key unless it has expired, moves it
      to the front, and touches nothing else. */
  lemma GetAnswers(c: Recency, key: string, now: int, max: nat, maxBytes: nat)
    requires Within(c, max, maxBytes)
    ensures var (c', r) := Get(c, key, now);
            && Within(c', max, maxBytes)
            && r == (if Lookup(c, key).Some? && now <= Lookup(c, key).value.expires then Lookup(c, key) else None)
            && (r.Some? ==> c'[0] == r.value)
            && Lookup(c', key) == r
            && forall k :: k != key ==> Lookup(c', k) == Lookup(c, k)
  {
    var i := Find(c, key);
    if i < |c| {
      WithoutKeeps(c, i);
      BytesWithout(c, i);
      var w := Without(c, i);
      if now <= c[i].expires {
        BytesConcat([c[i]], w);
        assert [c[i]][..0] == [];
        forall j | 0 <= j < |w|
          ensures w[j].key != c[i].key
        {
          assert w[j] == c[if j < i then j else j + 1];
        }
        forall k
          ensures Lookup([c[i]] + w, k) == if k == c[i].key then Some(c[i]) else Lookup(w, k)
        {
          FrontLookup(c[i], w, k);
        }
      }
    }
  }

  // ---- runs of operations ----

  datatype Op = GetOp(key: string, now: int) | PutOp(e: Stored)

  function Step(c: Recency, op: Op, max: nat, maxBytes: nat): Recency {
    match op
    case GetOp(key, now) => Get(c, key, now).0
    case PutOp(e) => Put(c, e, max, maxBytes)
  }

  function After(run: seq<Op>, max: nat, maxBytes: nat): Recency {
    if |run| == 0 then [] else Step(After(run[..|run| - 1], max, maxBytes), run[|run| - 1], max, maxBytes)
  }

  /** In every run the keys are distinct and both limits hold. */
  lemma {:induction false} AlwaysWithin(run: seq<Op>, max: nat, maxBytes: nat)
    requires 0 < max
    ensures Within(After(run, max, maxBytes), max, maxBytes)
  {
    if |run| > 0 {
      var c := After(run[..|run| - 1], max, maxBytes);
      AlwaysWithin(run[..|run| - 1], max, maxBytes);
      match run[|run| - 1]
      case GetOp(key, now) => GetAnswers(c, key, now, max, maxBytes);
      case PutOp(e) => PutStores(c, e, max, maxBytes);
    }
  }

  /** The last entry put under the key that the budget can hold. */
  function LastPut(run: seq<Op>, key: string, maxBytes: nat): Option<Stored> {
    if |run| == 0 then None
    else
      var op := run[|run| - 1];
      if op.PutOp? && op.e.key == key && op.e.size <= maxBytes then Some(op.e)
      else LastPut(run[..|run| - 1], key, maxBytes)
  }

  /** Whatever is found under a key, in any run, is the last entry stored there. */
  lemma {:induction false} FoundIsLastStored(run: seq<Op>, key: string, max: nat, maxBytes: nat)
    requires 0 < max
    ensures Lookup(After(run, max, maxBytes), key) == LastPut(run, key, maxBytes)
            || Lookup(After(run, max, maxBytes), key) == None
  {
    if |run| > 0 {
      var before := run[..|run| - 1];
      var c := After(before, max, maxBytes);
      FoundIsLastStored(before, key, max, maxBytes);
      AlwaysWithin(before, max, maxBytes);
      match run[|run| - 1]
      case GetOp(k, now) => GetAnswers(c, k, now, max, maxBytes);
      case PutOp(e) => PutStores(c, e, max, maxBytes);
    }
  }

  /** An entry leaves the cache in three ways only: a new one under its key, a get
      that finds it expired, or the eviction of a put that had no room. */
  lemma EntryLeavesForAReason(run: seq<Op>, op: Op, key: string, max: nat, maxBytes: nat)
    requires 0 < max
    requires Lookup(After(run, max, maxBytes), key).Some?
    requires Lookup(After(run + [op], max, maxBytes), key) != Lookup(After(run, max, maxBytes), key)
    ensures var c := After(run, max, maxBytes);
            || (op.PutOp? && op.e.key == key && op.e.size <= maxBytes)
            || (op.GetOp? && op.key == key && op.now > Lookup(c, key).value.expires)
            || (op.PutOp? && op.e.key != key && op.e.size <= maxBytes
                && Crowded(Dropped(c, op.e.key), op.e.size, max, maxBytes))
  {
    assert (run + [op])[..|run|] == run;
    AlwaysWithin(run, max, maxBytes);
    var c := After(run, max, maxBytes);
    match op
    case GetOp(k, now) => GetAnswers(c, k, now, max, maxBytes);
    case PutOp(e) =>
      PutStores(c, e, max, maxBytes);
      if e.size <= maxBytes && e.key != key && !Crowded(Dropped(c, e.key), e.size, max, maxBytes) {
        FrontLookup(e, Dropped(c, e.key), key);
        if Find(c, e.key) < |c| { WithoutKeeps(c, Find(c, e.key)); }
      }
  }

  // ---- least recently used ----

  /** The position after the last operation that used the key: stored it or hit it. */
  function LastUse(run: seq<Op>, key: string, max: nat, maxBytes: nat): nat {
    if |run| == 0 then 0
    else
      var op := run[|run| - 1];
      var hit := match op
                 case GetOp(k, now) => k == key && Get(After(run[..|run| - 1], max, maxBytes), k, now).1.Some?
                 case PutOp(e) => e.key == key && e.size <= maxBytes;
      if hit then |run| else LastUse(run[..|run| - 1], key, max, maxBytes)
  }

  lemma {:induction false} LastUseBound(run: seq<Op>, key: string, max: nat, maxBytes: nat)
    ensures LastUse(run, key, max, maxBytes) <= |run|
  {
    if |run| > 0 { LastUseBound(run[..|run| - 1], key, max, maxBytes); }
  }

  ghost predicate ByUse(c: Recency, run: seq<Op>, max: nat, maxBytes: nat) {
    forall i, j :: 0 <= i < j < |c| ==> LastUse(run, c[i].key, max, maxBytes) > LastUse(run, c[j].key, max, maxBytes)
  }

  /** The list is in order of last use, in every run: so what an eviction drops from
      its end was used less recently than anything it keeps. */
  lemma {:induction false} ListIsByUse(run: seq<Op>, max: nat, maxBytes: nat)
    requires 0 < max
    ensures ByUse(After(run, max, maxBytes), run, max, maxBytes)
  {
    if |run| > 0 {
      hide ByUse, After, Within;
      var before, op := run[..|run| - 1], run[|run| - 1];
      assert run == before + [op];
      ListIsByUse(before, max, maxBytes);
      AlwaysWithin(before, max, maxBytes);
      match op
      case GetOp(k, now) => GetKeepsOrder(before, run, k, now, max, maxBytes);
      case PutOp(e) => PutKeepsOrder(before, run, e, max, maxBytes);
    }
  }

  /** Taking one entry out does not disturb the order of the others. */
  lemma WithoutOrder(c: Recency, i: nat, before: seq<Op>, run: seq<Op>, max: nat, maxBytes: nat)
    requires ByUse(c, before, max, maxBytes) && DistinctKeys(c) && i < |c|
    requires forall j :: 0 <= j < |c| && j != i ==> LastUse(run, c[j].key, max, maxBytes) == LastUse(before, c[j].key, max, maxBytes)
    ensures ByUse(Without(c, i), run, max, maxBytes)
  {
    hide LastUse;
    var w := Without(c, i);
    forall p, q | 0 <= p < q < |w|
      ensures LastUse(run, w[p].key, max, maxBytes) > LastUse(run, w[q].key, max, maxBytes)
    {
      var p', q' := if p < i then p else p + 1, if q < i then q else q + 1;
      assert w[p] == c[p'] && w[q] == c[q'];
    }
  }

  lemma FrontOrder(e: Stored, rest: Recency, before: seq<Op>, run: seq<Op>, max: nat, maxBytes: nat)
    requires ByUse(rest, run, max, maxBytes) && LastUse(run, e.key, max, maxBytes) == |run| == |before| + 1
    requires forall j :: 0 <= j < |rest| ==> LastUse(run, rest[j].key, max, maxBytes) == LastUse(before, rest[j].key, max, maxBytes)
    ensures ByUse([e] + rest, run, max, maxBytes)
  {
    hide LastUse;
    var c := [e] + rest;
    forall p, q | 0 <= p < q < |c|
      ensures LastUse(run, c[p].key, max, maxBytes) > LastUse(run, c[q].key, max, maxBytes)
    {
      if p == 0 { LastUseBound(before, rest[q - 1].key, max, maxBytes); }
    }
  }

  /** An operation uses the key it names, if it hits or stores, and no other. */
  lemma UseOf(before: seq<Op>, op: Op, key: string, max: nat, maxBytes: nat)
    ensures var run := before + [op];
            LastUse(run, key, max, maxBytes) ==
              var hit := match op
                         case GetOp(k, now) => k == key && Get(After(before, max, maxBytes), k, now).1.Some?
                         case PutOp(e) => e.key == key && e.size <= maxBytes;
              if hit then |run| else LastUse(before, key, max, maxBytes)
  {
    assert (before + [op])[..|before|] == before;
  }

  /** The part of GetKeepsOrder for an entry that is still good: it moves to the front. */
  lemma HitOrder(c: Recency, i: nat, before: seq<Op>, run: seq<Op>, max: nat, maxBytes: nat)
    requires i < |c| && ByUse(Without(c, i), run, max, maxBytes)
    requires LastUse(run, c[i].key, max, maxBytes) == |run| == |before| + 1
    requires forall j :: 0 <= j < |c| && j != i ==> LastUse(run, c[j].key, max, maxBytes) == LastUse(before, c[j].key, max, maxBytes)
    ensures ByUse([c[i]] + Without(c, i), run, max, maxBytes)
  {
    hide LastUse, ByUse;
    var w := Without(c, i);
    forall j | 0 <= j < |w|
      ensures LastUse(run, w[j].key, max, maxBytes) == LastUse(before, w[j].key, max, maxBytes)
    {
      assert w[j] == c[if j < i then j else j + 1];
    }
    FrontOrder(c[i], w, before, run, max, maxBytes);
  }

  lemma GetKeepsOrder(before: seq<Op>, run: seq<Op>, k: string, now: int, max: nat, maxBytes: nat)
    requires run == before + [GetOp(k, now)] && ByUse(After(before, max, maxBytes), before, max, maxBytes)
    requires Within(After(before, max, maxBytes), max, maxBytes)
    ensures ByUse(After(run, max, maxBytes), run, max, maxBytes)
  {
    assert run[..|run| - 1] == before;
    hide LastUse, ByUse, Without;
    var c := After(before, max, maxBytes);
    var i := Find(c, k);
    forall j | 0 <= j < |c| && j != i
      ensures LastUse(run, c[j].key, max, maxBytes) == LastUse(before, c[j].key, max, maxBytes)
    {
      UseOf(before, GetOp(k, now), c[j].key, max, maxBytes);
      if i < |c| { assert c[j].key != c[i].key; }
    }
    if i == |c| {
      SameOrder(c, before, run, max, maxBytes);
    } else {
      WithoutOrder(c, i, before, run, max, maxBytes);
      if now <= c[i].expires {
        UseOf(before, GetOp(k, now), k, max, maxBytes);
        HitOrder(c, i, before, run, max, maxBytes);
      }
    }
  }

  lemma SameOrder(c: Recency, before: seq<Op>, run: seq<Op>, max: nat, maxBytes: nat)
    requires ByUse(c, before, max, maxBytes)
    requires forall j :: 0 <= j < |c| ==> LastUse(run, c[j].key, max, maxBytes) == LastUse(before, c[j].key, max, maxBytes)
    ensures ByUse(c, run, max, maxBytes)
  {
    hide LastUse;
  }

  /** Dropping the key a store is for leaves an order the store has not changed. */
  lemma DroppedOrder(c: Recency, key: string, before: seq<Op>, run: seq<Op>, max: nat, maxBytes: nat)
    requires ByUse(c, before, max, maxBytes) && DistinctKeys(c)
    requires forall j :: 0 <= j < |c| && c[j].key != key ==> LastUse(run, c[j].key, max, maxBytes) == LastUse(before, c[j].key, max, maxBytes)
    ensures ByUse(Dropped(c, key), run, max, maxBytes)
    ensures forall j :: 0 <= j < |Dropped(c, key)| ==>
      LastUse(run, Dropped(c, key)[j].key, max, maxBytes) == LastUse(before, Dropped(c, key)[j].key, max, maxBytes)
  {
    hide LastUse, ByUse;
    var i, d := Find(c, key), Dropped(c, key);
    if i < |c| {
      forall j | 0 <= j < |c| && j != i ensures c[j].key != key { assert c[j].key != c[i].key; }
      WithoutOrder(c, i, before, run, max, maxBytes);
      forall j | 0 <= j < |d| ensures LastUse(run, d[j].key, max, maxBytes) == LastUse(before, d[j].key, max, maxBytes) {
        assert d[j] == c[if j < i then j else j + 1];
      }
    } else {
      SameOrder(c, before, run, max, maxBytes);
    }
  }

  lemma PrefixOrder(c: Recency, n: nat, run: seq<Op>, max: nat, maxBytes: nat)
    requires ByUse(c, run, max, maxBytes) && n <= |c|
    ensures ByUse(c[..n], run, max, maxBytes)
  {
    hide LastUse;
  }

  lemma PutKeepsOrder(before: seq<Op>, run: seq<Op>, e: Stored, max: nat, maxBytes: nat)
    requires run == before + [PutOp(e)] && ByUse(After(before, max, maxBytes), before, max, maxBytes)
    requires Within(After(before, max, maxBytes), max, maxBytes) && 0 < max
    ensures ByUse(After(run, max, maxBytes), run, max, maxBytes)
  {
    assert run[..|run| - 1] == before;
    hide LastUse, ByUse, Dropped, Evict, Crowded;
    var c := After(before, max, maxBytes);
    forall j | 0 <= j < |c| && (c[j].key != e.key || e.size > maxBytes)
      ensures LastUse(run, c[j].key, max, maxBytes) == LastUse(before, c[j].key, max, maxBytes)
    {
      UseOf(before, PutOp(e), c[j].key, max, maxBytes);
    }
    if e.size <= maxBytes {
      UseOf(before, PutOp(e), e.key, max, maxBytes);
      DroppedOrder(c, e.key, before, run, max, maxBytes);
      var d := Dropped(c, e.key);
      EvictsOnlyASuffix(d, e.size, max, maxBytes);
      var kept := Evict(d, e.size, max, maxBytes);
      PrefixOrder(d, |kept|, run, max, maxBytes);
      assert kept == d[..|kept|];
      FrontOrder(e, kept, before, run, max, maxBytes);
    } else {
      SameOrder(c, before, run, max, maxBytes);
    }
  }

  // ---- the structures of the source ----

  class CacheEntry {
    var key: string
    var size: nat
    const status: int
    const header: Header
    const body: seq<int>
    const expires: int

    constructor (status: int, header: Header, body: seq<int>, expires: int)
      ensures this.status == status && this.header == header && this.body == body && this.expires == expires
    {
      this.status, this.header, this.body, this.expires := status, header, body, expires;
      key, size := "", 0;
    }

    function Value(): Stored
      reads this
    {
      Stored(key, size, expires, status, header, body)
    }

    /** What the entry counts for: a loop over its header's fields and values. */
    method EntrySize() returns (n: nat)
      ensures n == SizeOf(key, header, body)
    {
      n := ENTRY_OVERHEAD + |key| + |body|;
      var i := 0;
      while i < |header|
        invariant 0 <= i <= |header|
        invariant n == ENTRY_OVERHEAD + |key| + |body| + HeaderSize(header[..i])
      {
        assert header[..i + 1][..i] == header[..i];
        var (k, vs) := header[i];
        n := n + |k|;
        var j := 0;
        while j < |vs|
          invariant 0 <= j <= |vs|
          invariant n == ENTRY_OVERHEAD + |key| + |body| + HeaderSize(header[..i]) + |k| + ValuesSize(vs[..j])
        {
          assert vs[..j + 1][..j] == vs[..j];
          n := n + |vs[j]| + 4;
          j := j + 1;
        }
        assert vs[..j] == vs;
        i := i + 1;
      }
      assert header[..i] == header;
    }
  }

  function Values(es: seq<CacheEntry>): Recency
    reads es
  {
    seq(|es|, i requires 0 <= i < |es| reads es => es[i].Value())
  }

  function IndexOf(es: seq<CacheEntry>, e: CacheEntry): (i: nat)
    requires e in es
    ensures i < |es| && es[i] == e
  {
    if es[0] == e then 0 else 1 + IndexOf(es[1..], e)
  }

  lemma StillIn<T>(s: seq<T>, i: nat, x: T)
    requires i < |s| && x in s && x != s[i]
    ensures x in Without(s, i)
  {
    var j :| 0 <= j < |s| && s[j] == x;
    assert Without(s, i)[if j < i then j else j - 1] == x;
  }

  lemma WithoutAt<T>(s: seq<T>, i: nat, j: nat)
    requires i < |s| && j < |s| - 1
    ensures Without(s, i)[j] == s[if j < i then j else j + 1]
  {
  }

  /** The map has exactly the listed entries, by their keys. */
  ghost predicate Maps(m: map<string, CacheEntry>, lru: seq<CacheEntry>)
    reads lru
  {
    && |m| == |lru|
    && (forall i :: 0 <= i < |lru| ==> lru[i].key in m && m[lru[i].key] == lru[i])
    && (forall k :: k in m ==> m[k] in lru)
    && (forall k :: k in m ==> m[k].key == k)
  }

  lemma MapsWithout(m: map<string, CacheEntry>, lru: seq<CacheEntry>, i: nat)
    requires Maps(m, lru) && i < |lru| && DistinctKeys(Values(lru))
    ensures Maps(m - {lru[i].key}, Without(lru, i))
    ensures Values(Without(lru, i)) == Without(Values(lru), i)
  {
    var m', w := m - {lru[i].key}, Without(lru, i);
    forall k | k in m'
      ensures m'[k] in w
    {
      StillIn(lru, i, m[k]);
    }
    forall j | 0 <= j < |w|
      ensures w[j].key in m' && m'[w[j].key] == w[j]
    {
      WithoutAt(lru, i, j);
      var p := if j < i then j else j + 1;
      assert Values(lru)[p].key != Values(lru)[i].key;
    }
  }

  lemma MapsFront(m: map<string, CacheEntry>, lru: seq<CacheEntry>, i: nat)
    requires Maps(m, lru) && i < |lru|
    ensures Maps(m, [lru[i]] + Without(lru, i))
    ensures Values([lru[i]] + Without(lru, i)) == [Values(lru)[i]] + Without(Values(lru), i)
  {
    var l := [lru[i]] + Without(lru, i);
    forall k | k in m
      ensures m[k] in l
    {
      if m[k] != lru[i] { StillIn(lru, i, m[k]); }
    }
    forall j | 0 <= j < |l|
      ensures l[j].key in m && m[l[j].key] == l[j]
    {
      if j > 0 { WithoutAt(lru, i, j - 1); }
    }
  }

  lemma MapsAdd(m: map<string, CacheEntry>, lru: seq<CacheEntry>, e: CacheEntry)
    requires Maps(m, lru) && e.key !in m
    ensures Maps(m[e.key := e], [e] + lru)
    ensures Values([e] + lru) == [e.Value()] + Values(lru)
  {
  }

  class RespCache {
    const max: nat
    const maxBytes: nat
    var m: map<string, CacheEntry>
    var lru: seq<CacheEntry>
    var bytes: int

    constructor (max: nat, maxBytes: nat)
      ensures Valid() && Contents() == [] && this.maxBytes == maxBytes
      ensures this.max == if max == 0 then 512 else max
    {
      this.max := if max == 0 then 512 else max;
      this.maxBytes := maxBytes;
      m, lru, bytes := map[], [], 0;
    }

    function Contents(): Recency
      reads this, lru
    {
      Values(lru)
    }

    /** Map, list and byte counter agree. */
    ghost predicate Agree()
      reads this, lru
    {
      DistinctKeys(Contents()) && bytes == Bytes(Contents()) && Maps(m, lru)
    }

    ghost predicate Valid()
      reads this, lru
    {
      Agree() && 0 < max && Within(Contents(), max, maxBytes)
    }

    /** remove: forgets a stored entry. */
    method Remove(e: CacheEntry)
      requires Agree() && e in lru
      modifies this
      ensures Agree()
      ensures lru == Without(old(lru), IndexOf(old(lru), e))
      ensures Contents() == Without(old(Contents()), IndexOf(old(lru), e))
    {
      hide Maps, DistinctKeys, Bytes, Without;
      var i := IndexOf(lru, e);
      hide IndexOf;
      RemoveFacts(i);
      var rest := Without(lru, i);
      m := m - {e.key};
      lru := rest;
      bytes := bytes - e.size;
    }

    lemma RemoveFacts(i: nat)
      requires Agree() && i < |lru|
      ensures Maps(m - {lru[i].key}, Without(lru, i))
      ensures Values(Without(lru, i)) == Without(Contents(), i)
      ensures DistinctKeys(Without(Contents(), i))
      ensures Bytes(Without(Contents(), i)) == bytes - lru[i].size
    {
      BytesWithout(Contents(), i);
      WithoutKeeps(Contents(), i);
      MapsWithout(m, lru, i);
    }

    lemma Mapped(key: string)
      requires Agree()
      ensures key in m ==> m[key] in lru && m[key].key == key && Find(Contents(), key) == IndexOf(lru, m[key])
      ensures key !in m ==> Find(Contents(), key) == |Contents()|
    {
      if key in m {
        KeyIndex(Contents(), key, IndexOf(lru, m[key]));
      } else {
        var i := Find(Contents(), key);
        assert forall j :: 0 <= j < |lru| ==> Contents()[j].key == lru[j].key && lru[j].key in m;
      }
    }

    /** get: what is stored under the key, now the most recently used, unless it expired. */
    method Fetch(key: string, now: int) returns (e: CacheEntry?)
      requires Valid()
      modifies this
      ensures Valid()
      ensures Contents() == Get(old(Contents()), key, now).0
      ensures e == null <==> Get(old(Contents()), key, now).1 == None
      ensures e != null ==> Get(old(Contents()), key, now).1 == Some(e.Value())
    {
      hide Maps, DistinctKeys, Bytes, Find;
      ghost var c := Contents();
      GetAnswers(c, key, now, max, maxBytes);
      Mapped(key);
      if key !in m {
        return null;
      }
      e := m[key];
      ghost var i := IndexOf(lru, e);
      if now > e.expires {
        Remove(e);
        return null;
      }
      // The list moves the entry to its front.
      FrontBytes(c, i);
      MapsFront(m, lru, i);
      lru := [e] + Without(lru, IndexOf(lru, e));
    }

    /** put: an entry too large for the whole budget is not kept; any other goes to the
        front, after as many from the back have gone as both limits ask for. */
    method Store(key: string, e: CacheEntry)
      requires Valid() && e !in lru
      modifies this, e
      ensures Valid() && e.key == key && e.size == SizeOf(key, e.header, e.body)
      ensures Contents() == Put(old(Contents()), e.Value(), max, maxBytes)
    {
      hide Maps, DistinctKeys, Bytes, Find, Evict;
      ghost var c := Contents();
      e.key := key;
      var size := e.EntrySize();
      e.size := size;
      Untouched(c);
      PutStores(c, e.Value(), max, maxBytes);
      if e.size > maxBytes {
        return;
      }
      Mapped(key);
      if key in m {
        Remove(m[key]);
      }
      ghost var d := Contents();
      assert d == Dropped(c, key);
      MakeRoom(e);
      EvictsOnlyASuffix(d, e.size, max, maxBytes);
      NotKept(c, key, Contents(), d);
      NotMapped(key);
      Insert(e);
    }

    /** The entry goes to the front of the list, and into the map. */
    method Insert(e: CacheEntry)
      requires Agree() && e !in lru && e.key !in m
      modifies this
      ensures Agree()
      ensures Contents() == [e.Value()] + old(Contents())
    {
      hide Maps, Bytes;
      MapsAdd(m, lru, e);
      AddedBytes(e.Value(), Contents());
      KeysDiffer(e.key);
      m := m[e.key := e];
      lru := [e] + lru;
      bytes := bytes + e.size;
    }

    lemma KeysDiffer(key: string)
      requires Agree() && key !in m
      ensures forall j :: 0 <= j < |Contents()| ==> Contents()[j].key != key
    {
    }

    twostate lemma Untouched(c: Recency)
      requires c == old(Contents()) && lru == old(lru) && m == old(m) && bytes == old(bytes)
      requires old(Agree()) && forall x :: x in lru ==> x.key == old(x.key) && x.size == old(x.size)
      ensures Agree() && Contents() == c
    {
      forall i | 0 <= i < |lru|
        ensures Contents()[i] == c[i]
      {
        assert lru[i] in lru;
      }
      assert Contents() == c;
      forall i | 0 <= i < |lru|
        ensures lru[i].key in m && m[lru[i].key] == lru[i]
      {
        assert lru[i] in lru && old(lru[i].key) in m;
      }
      forall k | k in m
        ensures m[k] in lru && m[k].key == k
      {
        assert old(m[k].key) == k;
      }
    }

    lemma NotMapped(key: string)
      requires Agree() && forall j :: 0 <= j < |Contents()| ==> Contents()[j].key != key
      ensures key !in m
    {
      assert forall j :: 0 <= j < |lru| ==> Contents()[j].key == lru[j].key != key;
    }

    /** The eviction loop: from the back, while the entry does not fit. */
    method MakeRoom(e: CacheEntry)
      requires Agree() && e !in lru && 0 < max
      modifies this
      ensures Agree() && e !in lru
      ensures Contents() == Evict(old(Contents()), e.size, max, maxBytes)
    {
      hide Maps, DistinctKeys, Bytes;
      Counted();
      while |lru| > 0 && (|m| >= max || bytes + e.size > maxBytes)
        invariant Agree() && e !in lru && |m| == |lru|
        invariant Evict(Contents(), e.size, max, maxBytes) == Evict(old(Contents()), e.size, max, maxBytes)
        decreases |lru|
      {
        ghost var c := Contents();
        LastIndex();
        Remove(lru[|lru| - 1]);
        assert Contents() == c[..|c| - 1];
        Counted();
      }
    }

    lemma Counted()
      requires Agree()
      ensures |m| == |lru|
    {
    }

    lemma LastIndex()
      requires |lru| > 0 && DistinctKeys(Contents())
      ensures IndexOf(lru, lru[|lru| - 1]) == |lru| - 1
    {
      var i := IndexOf(lru, lru[|lru| - 1]);
      assert forall j :: 0 <= j < |lru| ==> Contents()[j].key == lru[j].key;
      assert forall j :: 0 <= j < |lru| - 1 ==> lru[j].key != lru[|lru| - 1].key;
    }
  }

  lemma FrontBytes(c: Recency, i: nat)
    requires i < |c|
    ensures Bytes([c[i]] + Without(c, i)) == Bytes(c)
  {
    BytesWithout(c, i);
    AddedBytes(c[i], Without(c, i));
  }

  lemma AddedBytes(e: Stored, c: Recency)
    ensures Bytes([e] + c) == e.size + Bytes(c)
  {
    BytesConcat([e], c);
    assert [e][..0] == [];
  }

  lemma KeyIndex(c: Recency, key: string, i: nat)
    requires DistinctKeys(c) && i < |c| && c[i].key == key
    ensures Find(c, key) == i
  {
    var j := Find(c, key);
    assert forall k :: 0 <= k < i ==> c[k].key != c[i].key;
  }

  lemma NotKept(c: Recency, key: string, kept: Recency, d: Recency)
    requires DistinctKeys(c) && d == Dropped(c, key) && kept <= d
    ensures forall j :: 0 <= j < |kept| ==> kept[j].key != key
  {
    forall j | 0 <= j < |kept|
      ensures kept[j].key != key
    {
      assert kept[j] == d[j];
      AbsentKey(c, key, j);
    }
  }

  // ---- what an entry is charged ----

  /** 256 bytes, the key and the body; every header name, and four bytes more than its
      length for every value. */
  lemma SizeCharged(key: string, h: Header, name: string, values: seq<string>, value: string, body: seq<int>)
    ensures SizeOf(key, [], body) == 256 + |key| + |body|
    ensures SizeOf(key, h + [(name, [])], body) == SizeOf(key, h, body) + |name|
    ensures SizeOf(key, h + [(name, values + [value])], body) == SizeOf(key, h + [(name, values)], body) + |value| + 4
  {
    assert (h + [(name, [])])[..|h|] == h;
    assert (h + [(name, values)])[..|h|] == h;
    assert (h + [(name, values + [value])])[..|h|] == h;
    assert (values + [value])[..|values|] == values;
  }
}
