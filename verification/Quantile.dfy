/** `histogramQuantile` (internal/collector/normalizer.go): interpolation in a map from upper bounds
    to counts. */
module Quantile {
  import opened Reals
  import opened Sorting

  datatype Bound = At(le: real) | PlusInf

  type Buckets = map<Bound, real>

  predicate Before(x: Bound, y: Bound) {
    x.At? && (y.At? ==> x.le < y.le)
  }

  predicate Sorted(bounds: seq<Bound>) {
    InOrder(bounds, Before)
  }

  predicate Known(b: Buckets, bounds: seq<Bound>) {
    forall i | 0 <= i < |bounds| :: bounds[i] in b
  }

  /** The bounds of `b` in increasing order, +Inf last. */
  ghost predicate SortedBounds(b: Buckets, bounds: seq<Bound>) {
    Sorted(bounds) && Known(b, bounds) && forall x <- b :: x in bounds
  }

  /** The largest count among the first `k` bounds, at least 0. */
  function MaxCount(b: Buckets, bounds: seq<Bound>, k: nat): real
    requires k <= |bounds| && Known(b, bounds)
  {
    if k == 0 then 0.0 else Max(MaxCount(b, bounds, k - 1), b[bounds[k - 1]])
  }

  lemma {:induction false} MaxCountIsMax(b: Buckets, bounds: seq<Bound>, k: nat)
    requires k <= |bounds| && Known(b, bounds)
    ensures 0.0 <= MaxCount(b, bounds, k) && forall i | 0 <= i < k :: b[bounds[i]] <= MaxCount(b, bounds, k)
    ensures MaxCount(b, bounds, k) == 0.0 || exists i :: 0 <= i < k && b[bounds[i]] == MaxCount(b, bounds, k)
  {
    if k > 0 {
      MaxCountIsMax(b, bounds, k - 1);
      assert MaxCount(b, bounds, k) == b[bounds[k - 1]] || MaxCount(b, bounds, k) == MaxCount(b, bounds, k - 1);
    }
  }

  /** The count of +Inf, or the largest count when there is no such bucket. */
  function Total(b: Buckets, bounds: seq<Bound>): real
    requires Known(b, bounds)
  {
    if PlusInf in b then b[PlusInf] else MaxCount(b, bounds, |bounds|)
  }

  /** The first bucket, from `from` on, whose count reaches `rank`; `|bounds|` if none does. */
  function FirstReaching(b: Buckets, bounds: seq<Bound>, rank: real, from: nat): (k: nat)
    requires from <= |bounds| && Known(b, bounds)
    ensures from <= k <= |bounds|
    ensures k < |bounds| ==> b[bounds[k]] >= rank
    ensures forall i | from <= i < k :: b[bounds[i]] < rank
    decreases |bounds| - from
  {
    if from == |bounds| || b[bounds[from]] >= rank then from
    else FirstReaching(b, bounds, rank, from + 1)
  }

  /** The last finite bound before position `k`, 0 if there is none. */
  function Lower(bounds: seq<Bound>, k: nat): real
    requires k <= |bounds|
  {
    if k == 0 then 0.0
    else if bounds[k - 1].At? then bounds[k - 1].le
    else Lower(bounds, k - 1)
  }

  function CountBefore(b: Buckets, bounds: seq<Bound>, k: nat): real
    requires k <= |bounds| && Known(b, bounds)
  {
    if k == 0 then 0.0 else b[bounds[k - 1]]
  }

  /** The point at `rank` on the line from (c0, lo) to (c1, hi). */
  function Interpolate(lo: real, hi: real, c0: real, c1: real, rank: real): real
    requires c0 < c1
  {
    lo + Times((rank - c0) / (c1 - c0), hi - lo)
  }

  /** The value returned when bucket `k` is the first to reach `rank`. */
  function InBucket(b: Buckets, bounds: seq<Bound>, k: nat, rank: real): real
    requires k <= |bounds| && Known(b, bounds)
  {
    if k == |bounds| || bounds[k].PlusInf? then Lower(bounds, k)
    else
      var count, before := b[bounds[k]], CountBefore(b, bounds, k);
      if count <= before then bounds[k].le else Interpolate(Lower(bounds, k), bounds[k].le, before, count, rank)
  }

  function QuantileOf(b: Buckets, bounds: seq<Bound>, q: real): real
    requires Known(b, bounds)
  {
    if Total(b, bounds) <= 0.0 then 0.0
    else
      var rank := Times(q, Total(b, bounds));
      InBucket(b, bounds, FirstReaching(b, bounds, rank, 0), rank)
  }

  method HistogramQuantile(q: real, b: Buckets) returns (v: real)
    ensures exists bounds :: SortedBounds(b, bounds)
    ensures forall bounds | SortedBounds(b, bounds) :: v == QuantileOf(b, bounds, q)
  {
    BeforeIsOrdering();
    var sorted := Sort(b.Keys, Before);
    assert SortedBounds(b, sorted);
    forall bounds | SortedBounds(b, bounds)
      ensures bounds == sorted
    {
      SortedOnce(bounds, sorted, Before);
    }
    if |b| == 0 {
      return 0.0;
    }
    var total := TotalOf(b, sorted);
    if total <= 0.0 {
      return 0.0;
    }
    v := Walk(b, sorted, Times(q, total));
  }

  /** The first loop. +Inf is the last bound, so nothing is skipped when it ends the loop. */
  method TotalOf(b: Buckets, bounds: seq<Bound>) returns (total: real)
    requires SortedBounds(b, bounds)
    ensures total == Total(b, bounds)
  {
    total := 0.0;
    for i := 0 to |bounds|
      invariant total == MaxCount(b, bounds, i)
      invariant forall j | 0 <= j < i :: bounds[j] != PlusInf
    {
      if bounds[i] == PlusInf {
        return b[PlusInf];
      }
      total := Max(total, b[bounds[i]]);
    }
  }

  /** The second loop. */
  method Walk(b: Buckets, bounds: seq<Bound>, rank: real) returns (v: real)
    requires Known(b, bounds)
    ensures v == InBucket(b, bounds, FirstReaching(b, bounds, rank, 0), rank)
  {
    var prevBound, prevCount := 0.0, 0.0;
    for i := 0 to |bounds|
      invariant prevBound == Lower(bounds, i) && prevCount == CountBefore(b, bounds, i)
      invariant FirstReaching(b, bounds, rank, 0) == FirstReaching(b, bounds, rank, i)
    {
      var bound := bounds[i];
      var count := b[bound];
      if count >= rank {
        if bound.PlusInf? {
          return prevBound;
        }
        if count <= prevCount {
          return bound.le;
        }
        return Interpolate(prevBound, bound.le, prevCount, count, rank);
      }
      if bound.At? {
        prevBound := bound.le;
      }
      prevCount := count;
    }
    v := prevBound;
  }

  lemma BeforeIsOrdering()
    ensures IsOrdering(Before)
  {
  }

  // ---------------------------------------------------------------------------------------
  // What the quantile means
  // ---------------------------------------------------------------------------------------

  predicate PositiveBounds(bounds: seq<Bound>) {
    Sorted(bounds) && forall i | 0 <= i < |bounds| :: bounds[i].At? ==> 0.0 < bounds[i].le
  }

  lemma FractionInRange(x: real, d: real)
    requires 0.0 < x <= d
    ensures 0.0 < x / d <= 1.0
  {
    var q := x / d;
    assert q * d == x;
    if q <= 0.0 {
      MulMono(q, 0.0, d);
    }
    if 1.0 < q {
      MulStrict(1.0, q, d);
    }
  }

  lemma InterpolateInRange(lo: real, hi: real, c0: real, c1: real, rank: real)
    requires lo <= hi && c0 < rank <= c1
    ensures lo <= Interpolate(lo, hi, c0, c1, rank) <= hi
  {
    FractionInRange(rank - c0, c1 - c0);
    var f := (rank - c0) / (c1 - c0);
    TimesNonNegative(f, hi - lo);
    MulMono(f, 1.0, hi - lo);
  }

  lemma QuotientMonotone(x: real, y: real, d: real)
    requires x <= y && 0.0 < d
    ensures x / d <= y / d
  {
    var p, q := x / d, y / d;
    assert p * d == x && q * d == y;
    if q < p {
      MulStrict(q, p, d);
    }
  }

  lemma InterpolateMonotone(lo: real, hi: real, c0: real, c1: real, rank: real, rank': real)
    requires lo <= hi && c0 < c1 && rank <= rank'
    ensures Interpolate(lo, hi, c0, c1, rank) <= Interpolate(lo, hi, c0, c1, rank')
  {
    QuotientMonotone(rank - c0, rank' - c0, c1 - c0);
    MulMono((rank - c0) / (c1 - c0), (rank' - c0) / (c1 - c0), hi - lo);
  }

  /** The upper end of bucket `k`; for +Inf, or past the end, it is the last finite bound. */
  function Upper(bounds: seq<Bound>, k: nat): real
    requires k <= |bounds|
  {
    if k < |bounds| && bounds[k].At? then bounds[k].le else Lower(bounds, k)
  }

  lemma {:induction false} LowerGrows(bounds: seq<Bound>, j: nat, k: nat)
    requires PositiveBounds(bounds) && j <= k <= |bounds|
    ensures 0.0 <= Lower(bounds, j) <= Lower(bounds, k)
    ensures j < k ==> Upper(bounds, j) <= Lower(bounds, k)
    ensures Lower(bounds, k) <= Upper(bounds, k)
    decreases k
  {
    if j < k {
      LowerGrows(bounds, j, k - 1);
    } else if k > 0 {
      LowerGrows(bounds, k - 1, k - 1);
    }
  }

  /** A bucket that is the first to reach a positive rank holds more than the one before it, so the
      value lies in the bucket. */
  lemma ValueInBucket(b: Buckets, bounds: seq<Bound>, rank: real)
    requires PositiveBounds(bounds) && Known(b, bounds) && 0.0 < rank
    ensures var k := FirstReaching(b, bounds, rank, 0);
      && Lower(bounds, k) <= InBucket(b, bounds, k, rank) <= Upper(bounds, k)
      && CountBefore(b, bounds, k) < rank
  {
    var k := FirstReaching(b, bounds, rank, 0);
    LowerGrows(bounds, k, k);
    if k < |bounds| && bounds[k].At? {
      InterpolateInRange(Lower(bounds, k), bounds[k].le, CountBefore(b, bounds, k), b[bounds[k]], rank);
    }
  }

  lemma RankMonotone(b: Buckets, bounds: seq<Bound>, rank: real, rank': real)
    requires PositiveBounds(bounds) && Known(b, bounds) && 0.0 < rank <= rank'
    ensures InBucket(b, bounds, FirstReaching(b, bounds, rank, 0), rank)
         <= InBucket(b, bounds, FirstReaching(b, bounds, rank', 0), rank')
  {
    var k, k' := FirstReaching(b, bounds, rank, 0), FirstReaching(b, bounds, rank', 0);
    ValueInBucket(b, bounds, rank);
    ValueInBucket(b, bounds, rank');
    assert k <= k';
    LowerGrows(bounds, k, k');
    if k == k' && k < |bounds| && bounds[k].At? {
      InterpolateMonotone(Lower(bounds, k), bounds[k].le, CountBefore(b, bounds, k), b[bounds[k]], rank, rank');
    }
  }

  /** With positive bounds the quantile is monotone in q, whether or not the counts are cumulative. */
  lemma QuantileMonotone(b: Buckets, bounds: seq<Bound>, q: real, q': real)
    requires SortedBounds(b, bounds) && PositiveBounds(bounds) && 0.0 < q <= q'
    ensures QuantileOf(b, bounds, q) <= QuantileOf(b, bounds, q')
  {
    var total := Total(b, bounds);
    if 0.0 < total {
      MulMono(q, q', total);
      MulStrict(0.0, q, total);
      RankMonotone(b, bounds, Times(q, total), Times(q', total));
    }
  }

  lemma SomeBucketReaches(b: Buckets, bounds: seq<Bound>, rank: real)
    requires SortedBounds(b, bounds) && rank <= Total(b, bounds) && 0.0 < Total(b, bounds)
    ensures FirstReaching(b, bounds, rank, 0) < |bounds|
  {
    if PlusInf in b {
      assert PlusInf in bounds;
      var i :| 0 <= i < |bounds| && bounds[i] == PlusInf;
      assert b[bounds[i]] >= rank;
    } else {
      MaxCountIsMax(b, bounds, |bounds|);
      var i :| 0 <= i < |bounds| && b[bounds[i]] == Total(b, bounds);
      assert b[bounds[i]] >= rank;
    }
  }

  /** For 0 < q <= 1 and a positive total some bucket reaches the rank, and the quantile lies within
      the first that does: above the finite bound before it and up to its own bound, which for +Inf
      means exactly the last finite bound. */
  lemma QuantileInBucket(b: Buckets, bounds: seq<Bound>, q: real)
    requires SortedBounds(b, bounds) && PositiveBounds(bounds) && 0.0 < q <= 1.0 && 0.0 < Total(b, bounds)
    ensures var rank := Times(q, Total(b, bounds));
      var k := FirstReaching(b, bounds, rank, 0);
      && k < |bounds| && b[bounds[k]] >= rank && (forall i | 0 <= i < k :: b[bounds[i]] < rank)
      && Lower(bounds, k) <= QuantileOf(b, bounds, q) <= Upper(bounds, k)
  {
    var total := Total(b, bounds);
    MulStrict(0.0, q, total);
    MulMono(q, 1.0, total);
    SomeBucketReaches(b, bounds, Times(q, total));
    ValueInBucket(b, bounds, Times(q, total));
  }

  lemma OnTheLine(lo: real, hi: real, c0: real, c1: real, rank: real)
    requires c0 < c1
    ensures Times(Interpolate(lo, hi, c0, c1, rank) - lo, c1 - c0) == Times(rank - c0, hi - lo)
    ensures Interpolate(lo, hi, c0, c1, c0) == lo && Interpolate(lo, hi, c0, c1, c1) == hi
  {
    var d := c1 - c0;
    var f := (rank - c0) / d;
    assert f * d == rank - c0;
    assert (f * (hi - lo)) * d == (f * d) * (hi - lo);
    assert (c0 - c0) / d == 0.0 && (c1 - c0) / d == 1.0;
  }

  /** Within the first bucket that reaches the rank, when that is a finite one, the quantile lies on the
      line from the bound and the count before it to its own bound and count. */
  lemma QuantileOnTheLine(b: Buckets, bounds: seq<Bound>, q: real)
    requires SortedBounds(b, bounds) && PositiveBounds(bounds) && 0.0 < q <= 1.0 && 0.0 < Total(b, bounds)
    ensures var rank := Times(q, Total(b, bounds));
      var k := FirstReaching(b, bounds, rank, 0);
      k < |bounds| && (bounds[k].At? ==>
        var lo, hi, c0, c1 := Lower(bounds, k), bounds[k].le, CountBefore(b, bounds, k), b[bounds[k]];
        && c0 < rank <= c1
        && Times(QuantileOf(b, bounds, q) - lo, c1 - c0) == Times(rank - c0, hi - lo)
        && (rank == c1 ==> QuantileOf(b, bounds, q) == hi))
  {
    var rank := Times(q, Total(b, bounds));
    var k := FirstReaching(b, bounds, rank, 0);
    QuantileInBucket(b, bounds, q);
    MulStrict(0.0, q, Total(b, bounds));
    ValueInBucket(b, bounds, rank);
    if bounds[k].At? {
      OnTheLine(Lower(bounds, k), bounds[k].le, CountBefore(b, bounds, k), b[bounds[k]], rank);
    }
  }
}
