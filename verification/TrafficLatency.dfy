/** Percentiles estimated from the latency buckets of a frame, over the reals. */
module TrafficLatency {

  /** The inclusive upper ends, in milliseconds, of all buckets but the twelfth. */
  const BOUNDS: seq<real> := [5.0, 10.0, 25.0, 50.0, 100.0, 250.0, 500.0, 1000.0, 2500.0, 5000.0, 10000.0]

  const LAST := 11

  function Bound(i: nat): real
    requires i < LAST
  {
    BOUNDS[i]
  }

  type Buckets = b: seq<nat> | |b| == 12 witness seq(12, i => 0)

  function BucketFrom(ms: real, i: nat): (k: nat)
    requires i <= LAST
    requires forall j :: 0 <= j < i ==> Bound(j) < ms
    ensures k <= LAST
    ensures forall j :: 0 <= j < k ==> Bound(j) < ms
    ensures k < LAST ==> ms <= Bound(k)
    decreases LAST - i
  {
    if i == LAST || ms <= Bound(i) then i else BucketFrom(ms, i + 1)
  }

  function Bucket(ms: real): (k: nat)
    ensures k <= LAST
  {
    BucketFrom(ms, 0)
  }

  /** How many of the samples fall in each bucket. */
  function Histogram(samples: seq<real>): Buckets {
    if |samples| == 0 then seq(12, i => 0)
    else
      var h, k := Histogram(samples[..|samples| - 1]), Bucket(samples[|samples| - 1]);
      h[k := h[k] + 1]
  }

  function Sum(b: Buckets, n: nat): nat
    requires n <= 12
  {
    if n == 0 then 0 else Sum(b, n - 1) + b[n - 1]
  }

  function Lower(i: nat): real
    requires i <= LAST
  {
    if i == 0 then 0.0 else Bound(i - 1)
  }

  /** The end of a bucket for interpolation; the twelfth has no width. */
  function Upper(i: nat): real
    requires i <= LAST
  {
    if i == LAST then Bound(LAST - 1) else Bound(i)
  }

  /** A share x of n of the width of a bucket. */
  function Portion(width: real, x: real, n: nat): real
    requires n > 0
  {
    width * x / n as real
  }

  /** The rank-th of n samples spread evenly over bucket i, of which `seen` come before. */
  function Within(i: nat, rank: real, seen: nat, n: nat): real
    requires i <= LAST && n > 0
  {
    if i == LAST then Lower(i) else Lower(i) + Portion(Bound(i) - Lower(i), rank - seen as real, n)
  }

  function Walk(b: Buckets, rank: real, i: nat, seen: nat): real
    requires i <= 12
    decreases 12 - i
  {
    if i == 12 then Bound(LAST - 1)
    else if b[i] > 0 && seen as real + b[i] as real >= rank then Within(i, rank, seen, b[i])
    else Walk(b, rank, i + 1, seen + b[i])
  }

  function RankOf(q: real, total: nat): real { q * total as real }

  /** The estimate for rank q of the whole count, negative for an empty histogram. */
  function Quantile(b: Buckets, q: real): real {
    if Sum(b, 12) == 0 then -1.0 else Walk(b, RankOf(q, Sum(b, 12)), 0, 0)
  }

  method Percentile(b: Buckets, q: real) returns (ms: real)
    ensures ms == Quantile(b, q)
  {
    hide Walk, RankOf;
    var total := 0;
    for i := 0 to 12
      invariant total == Sum(b, i)
    {
      total := total + b[i];
    }
    if total == 0 { return -1.0; }
    ms := AtRank(b, RankOf(q, total));
  }

  /** The loop over the buckets, for a rank among the samples. */
  method AtRank(b: Buckets, rank: real) returns (ms: real)
    ensures ms == Walk(b, rank, 0, 0)
  {
    hide Within, Bound;
    var seen := 0;
    for i := 0 to 12
      invariant Walk(b, rank, 0, 0) == Walk(b, rank, i, seen)
    {
      if b[i] == 0 { continue; }
      if seen as real + b[i] as real >= rank { return Within(i, rank, seen, b[i]); }
      seen := seen + b[i];
    }
    return Bound(LAST - 1);
  }

  // ---- what the buckets know of the samples ----

  function CountUpTo(samples: seq<real>, ms: real): nat {
    if |samples| == 0 then 0
    else CountUpTo(samples[..|samples| - 1], ms) + if samples[|samples| - 1] <= ms then 1 else 0
  }

  lemma {:induction false} SumOfZeros(n: nat)
    requires n <= 12
    ensures Sum(Histogram([]), n) == 0
  {
    if n > 0 { SumOfZeros(n - 1); }
  }

  lemma {:induction false} SumOfOneMore(b: Buckets, k: nat, n: nat)
    requires k < 12 && n <= 12
    ensures Sum(b[k := b[k] + 1], n) == Sum(b, n) + if k < n then 1 else 0
  {
    if n > 0 { SumOfOneMore(b, k, n - 1); }
  }

  lemma BoundsRise(i: nat, j: nat)
    requires i <= j < LAST
    ensures Bound(i) <= Bound(j) && 0.0 < Bound(i)
  {
  }

  lemma BucketIsUpTo(ms: real, k: nat, i: nat)
    requires k == Bucket(ms) && i < LAST
    ensures k <= i <==> ms <= Bound(i)
  {
    hide Bound;
    if k <= i { BoundsRise(k, i); }
  }

  /** The buckets up to a bound count exactly the samples up to it. */
  lemma {:induction false} BucketsCount(samples: seq<real>, i: nat)
    requires i < LAST
    ensures Sum(Histogram(samples), i + 1) == CountUpTo(samples, Bound(i))
  {
    hide Bound, Bucket, Sum;
    if |samples| == 0 {
      SumOfZeros(i + 1);
    } else {
      var front, last := samples[..|samples| - 1], samples[|samples| - 1];
      var k := Bucket(last);
      BucketsCount(front, i);
      SumOfOneMore(Histogram(front), k, i + 1);
      BucketIsUpTo(last, k, i);
    }
  }

  lemma {:induction false} BucketsCountAll(samples: seq<real>)
    ensures Sum(Histogram(samples), 12) == |samples|
  {
    if |samples| == 0 {
      SumOfZeros(12);
    } else {
      BucketsCountAll(samples[..|samples| - 1]);
      SumOfOneMore(Histogram(samples[..|samples| - 1]), Bucket(samples[|samples| - 1]), 12);
    }
  }

  // ---- where the estimate lies ----

  lemma PortionTimes(width: real, x: real, n: nat)
    requires n > 0
    ensures Portion(width, x, n) * n as real == width * x
  {
  }

  lemma TimesOrder(a: real, b: real, c: real)
    requires c >= 0.0
    ensures a <= b ==> a * c <= b * c
    ensures a < b && c > 0.0 ==> a * c < b * c
  {
  }

  lemma Between(p: real, width: real, x: real, d: real)
    requires p * d == width * x && 0.0 <= x <= d && d > 0.0 && width >= 0.0
    ensures 0.0 <= p <= width
  {
    var u, v, w := p * d, width * x, width * d;
    TimesOrder(0.0, x, width);
    assert 0.0 <= v;
    TimesOrder(x, d, width);
    assert v <= w;
    TimesOrder(p, 0.0, d);
    assert p < 0.0 ==> u < 0.0;
    TimesOrder(width, p, d);
    assert p > width ==> w < u;
  }

  lemma Share(x: real, n: nat, width: real)
    requires 0.0 <= x <= n as real && n > 0 && width >= 0.0
    ensures 0.0 <= Portion(width, x, n) <= width
  {
    hide Portion;
    PortionTimes(width, x, n);
    Between(Portion(width, x, n), width, x, n as real);
  }

  lemma WithinBucket(i: nat, rank: real, seen: nat, n: nat)
    requires i <= LAST && n > 0 && seen as real <= rank <= seen as real + n as real
    ensures Lower(i) <= Within(i, rank, seen, n) <= Upper(i)
  {
    hide Portion;
    if i < LAST {
      if i > 0 { BoundsRise(i - 1, i); }
      Share(rank - seen as real, n, Bound(i) - Lower(i));
    }
  }

  /** The bucket the rank falls in. */
  function Falls(b: Buckets, rank: real, i: nat): (k: nat)
    requires i < 12 && Sum(b, i) as real <= rank <= Sum(b, 12) as real
    requires Sum(b, 12) > Sum(b, i)
    ensures i <= k < 12 && b[k] > 0 && Sum(b, k) as real <= rank <= Sum(b, k + 1) as real
    ensures rank > Sum(b, i) as real ==> rank > Sum(b, k) as real
    ensures forall m :: i <= m < k ==> b[m] == 0 || Sum(b, m + 1) as real < rank
    ensures Walk(b, rank, i, Sum(b, i)) == Within(k, rank, Sum(b, k), b[k])
    decreases 12 - i
  {
    if b[i] > 0 && Sum(b, i + 1) as real >= rank then i else Falls(b, rank, i + 1)
  }

  lemma RankInRange(q: real, total: nat)
    requires 0.0 <= q <= 1.0
    ensures 0.0 <= RankOf(q, total) <= total as real
    ensures q > 0.0 && total > 0 ==> RankOf(q, total) > 0.0
  {
    var t := total as real;
    assert q * t <= 1.0 * t;
  }

  lemma RankGrows(p: real, q: real, total: nat)
    requires p <= q
    ensures RankOf(p, total) <= RankOf(q, total)
  {
    assert (q - p) * total as real >= 0.0;
  }

  /** The samples at or below the lower bound of a bucket; none for the first. */
  function CountBefore(samples: seq<real>, i: nat): nat
    requires i <= LAST
  {
    if i == 0 then 0 else CountUpTo(samples, Lower(i))
  }

  /** Between the bounds of bucket i, x is as far along as the rank is between the
      counts of samples below and at the end of it. */
  ghost predicate Interpolates(samples: seq<real>, i: nat, rank: real, x: real)
    requires i < LAST
  {
    var below, upTo := CountBefore(samples, i) as real, CountUpTo(samples, Upper(i)) as real;
    (x - Lower(i)) * (upTo - below) == (Upper(i) - Lower(i)) * (rank - below)
  }

  lemma WithinInterpolates(i: nat, rank: real, seen: nat, n: nat)
    requires i < LAST && n > 0
    ensures (Within(i, rank, seen, n) - Lower(i)) * n as real == (Upper(i) - Lower(i)) * (rank - seen as real)
  {
    hide Portion;
    PortionTimes(Bound(i) - Lower(i), rank - seen as real, n);
  }

  lemma EstimateLies(samples: seq<real>, q: real, rank: real) returns (i: nat)
    requires |samples| > 0 && 0.0 < q <= 1.0 && rank == RankOf(q, |samples|)
    ensures i <= LAST && Lower(i) <= Quantile(Histogram(samples), q) <= Upper(i)
    ensures i > 0 ==> CountUpTo(samples, Lower(i)) as real < rank
    ensures i < LAST ==> rank <= CountUpTo(samples, Upper(i)) as real
    ensures i < LAST ==> Interpolates(samples, i, rank, Quantile(Histogram(samples), q))
    ensures i == LAST ==> Quantile(Histogram(samples), q) == 10000.0
  {
    hide Bound, Walk, Within, Histogram, CountUpTo, RankOf;
    var b := Histogram(samples);
    BucketsCountAll(samples);
    RankInRange(q, |samples|);
    i := Falls(b, rank, 0);
    WithinBucket(i, rank, Sum(b, i), b[i]);
    if i > 0 { BucketsCount(samples, i - 1); }
    if i < LAST {
      BucketsCount(samples, i);
      FallsAlong(samples, i, rank);
    } else {
      LastBound(rank, Sum(b, i), b[i]);
    }
  }

  lemma FallsAlong(samples: seq<real>, i: nat, rank: real)
    requires i < LAST && Histogram(samples)[i] > 0
    ensures Interpolates(samples, i, rank, Within(i, rank, Sum(Histogram(samples), i), Histogram(samples)[i]))
  {
    hide Bound, Within, Histogram, CountUpTo;
    var b := Histogram(samples);
    var seen := Sum(b, i);
    if i > 0 { BucketsCount(samples, i - 1); }
    BucketsCount(samples, i);
    WithinInterpolates(i, rank, seen, b[i]);
    assert CountBefore(samples, i) == seen && CountUpTo(samples, Upper(i)) == seen + b[i];
  }

  /** The estimate is in the bucket that holds the quantile: fewer samples than the rank
      are at or below its lower bound, and at least so many at or below its upper. It is
      interpolated between the two, and ten seconds where the bucket has no end. */
  lemma EstimateIsInTheRightBucket(samples: seq<real>, q: real) returns (i: nat)
    requires |samples| > 0 && 0.0 < q <= 1.0
    ensures i <= LAST && Lower(i) <= Quantile(Histogram(samples), q) <= Upper(i)
    ensures i > 0 ==> CountUpTo(samples, Lower(i)) as real < q * |samples| as real
    ensures i < LAST ==> q * |samples| as real <= CountUpTo(samples, Upper(i)) as real
    ensures i < LAST ==> Interpolates(samples, i, q * |samples| as real, Quantile(Histogram(samples), q))
    ensures i == LAST ==> Quantile(Histogram(samples), q) == 10000.0
  {
    hide Lower, Upper, Quantile, CountUpTo, Histogram, Interpolates;
    i := EstimateLies(samples, q, q * |samples| as real);
  }

  lemma LastBound(rank: real, seen: nat, n: nat)
    requires n > 0
    ensures Within(LAST, rank, seen, n) == 10000.0
  {
  }

  lemma ShareGrows(x: real, y: real, n: nat, width: real)
    requires x <= y && n > 0 && width >= 0.0
    ensures Portion(width, x, n) <= Portion(width, y, n)
  {
    hide Portion;
    PortionTimes(width, x, n);
    PortionTimes(width, y, n);
    TimesOrder(x, y, width);
    assert x * width == width * x && y * width == width * y;
    NotAbove(Portion(width, x, n), Portion(width, y, n), n as real, width * x, width * y);
  }

  lemma NotAbove(p: real, r: real, d: real, v: real, w: real)
    requires p * d == v && r * d == w && v <= w && d > 0.0
    ensures p <= r
  {
    if r < p { TimesOrder(r, p, d); }
  }

  lemma RanksAreOrdered(b: Buckets, r: real, s: real)
    requires 0.0 <= r <= s <= Sum(b, 12) as real && Sum(b, 12) > 0
    ensures Walk(b, r, 0, 0) <= Walk(b, s, 0, 0)
  {
    hide Bound, Walk;
    var i, j := Falls(b, r, 0), Falls(b, s, 0);
    SameOrLaterBucket(b, r, s, i, j);
  }

  lemma SameOrLaterBucket(b: Buckets, r: real, s: real, i: nat, j: nat)
    requires r <= s && i <= j <= LAST && b[i] > 0 && b[j] > 0
    requires Sum(b, i) as real <= r <= Sum(b, i) as real + b[i] as real
    requires Sum(b, j) as real <= s <= Sum(b, j) as real + b[j] as real
    ensures Within(i, r, Sum(b, i), b[i]) <= Within(j, s, Sum(b, j), b[j])
  {
    hide Bound, Within, Sum;
    WithinBucket(i, r, Sum(b, i), b[i]);
    WithinBucket(j, s, Sum(b, j), b[j]);
    if i == j {
      WithinGrows(i, r, s, Sum(b, i), b[i]);
    } else {
      BoundsRise(i, j - 1);
    }
  }

  lemma WithinGrows(i: nat, r: real, s: real, seen: nat, n: nat)
    requires r <= s && i <= LAST && n > 0
    ensures Within(i, r, seen, n) <= Within(i, s, seen, n)
  {
    hide Bound, Portion;
    if i < LAST {
      BoundsRise(if i == 0 then 0 else i - 1, i);
      ShareGrows(r - seen as real, s - seen as real, n, Bound(i) - Lower(i));
    }
  }

  /** A higher quantile is never estimated lower: the median is at most the 95th
      percentile, and that at most the 99th. */
  lemma QuantilesAreOrdered(b: Buckets, p: real, q: real)
    requires 0.0 <= p <= q <= 1.0
    ensures Quantile(b, p) <= Quantile(b, q)
  {
    hide Walk, RankOf;
    var total := Sum(b, 12);
    if total > 0 {
      RankInRange(p, total);
      RankInRange(q, total);
      RankGrows(p, q, total);
      RanksAreOrdered(b, RankOf(p, total), RankOf(q, total));
    }
  }
}
