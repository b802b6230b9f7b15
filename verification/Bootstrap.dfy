/** The deterministic bootstrap lower bound: replicate means from an unbiased index stream, and
    a fixed order statistic of them. */
module Bootstrap {
  import opened Numbers
  import opened Sequences
  import opened Fixed
  import opened Lottery
  import opened Fairness

  type SignedPpm = n: int | -1_000_000 <= n <= 1_000_000

  const I64_MAX: int := 0x7FFF_FFFF_FFFF_FFFF

  // ---------- unbiased indices ----------

  /** Some later draw falls below the acceptance limit: without this the loop may not end. */
  ghost predicate LiveBelow(stream: Stream, limit: nat) {
    forall from: nat :: HasBelow(stream, limit, from)
  }

  ghost predicate HasBelow(stream: Stream, limit: nat, from: nat) {
    exists at: nat :: at >= from && stream(at) < limit
  }

  ghost function FirstBelow(stream: Stream, limit: nat, from: nat, last: nat): (at: nat)
    requires from <= last && stream(last) < limit
    ensures from <= at <= last && stream(at) < limit
    ensures forall i :: from <= i < at ==> stream(i) >= limit
    decreases last - from
  {
    if stream(from) < limit then from else FirstBelow(stream, limit, from + 1, last)
  }

  ghost function NextBelow(stream: Stream, limit: nat, from: nat): (at: nat)
    requires HasBelow(stream, limit, from)
    ensures at >= from && stream(at) < limit && forall i :: from <= i < at ==> stream(i) >= limit
  {
    var last: nat :| last >= from && stream(last) < limit;
    FirstBelow(stream, limit, from, last)
  }

  /** An index below `upper` and the stream position after it. */
  ghost function IndexDraw(stream: Stream, upper: u64, from: nat): (r: (nat, nat))
    requires upper > 0 && LiveBelow(stream, AcceptanceLimit(upper))
    ensures r.0 < upper && r.1 > from
  {
    assert HasBelow(stream, AcceptanceLimit(upper), from);
    var at := NextBelow(stream, AcceptanceLimit(upper), from);
    (stream(at) % upper, at + 1)
  }

  method BoundedIndex(rng: Generator, upper: u64) returns (index: nat)
    requires upper > 0 && LiveBelow(rng.stream, AcceptanceLimit(upper))
    modifies rng`position
    ensures (index, rng.position) == IndexDraw(rng.stream, upper, old(rng.position))
  {
    assert HasBelow(rng.stream, AcceptanceLimit(upper), rng.position);
    ghost var at := NextBelow(rng.stream, AcceptanceLimit(upper), rng.position);
    var acceptance := AcceptanceLimit(upper);
    while true
      invariant old(rng.position) <= rng.position <= at
      decreases at - rng.position
    {
      var value := rng.NextU64();
      if value < acceptance {
        return value % upper;
      }
    }
  }

  // ---------- one replicate ----------

  function SaturatingAddI64(a: int, b: int): int {
    Max(-I64_MAX - 1, Min(I64_MAX, a + b))
  }

  /** The saturated sum of `count` sampled values, and the stream position after them. */
  ghost function SampleSum(stream: Stream, values: seq<SignedPpm>, count: nat, sum: int, from: nat): (int, nat)
    requires 0 < |values| < TWO64 && LiveBelow(stream, AcceptanceLimit(|values|))
    decreases count
  {
    if count == 0 then (sum, from)
    else
      var drawn := IndexDraw(stream, |values|, from);
      SampleSum(stream, values, count - 1, SaturatingAddI64(sum, values[drawn.0]), drawn.1)
  }

  /** `div_euclid` by the number of values, saturated to `i64`. The result always fits the
      type of the mean (MeanInRange), so the source's fallback for an oversize one is never used. */
  function MeanOfSum(sum: int, count: nat): int
    requires count > 0
  {
    sum / (if count <= I64_MAX then count else I64_MAX)
  }

  /** All replicate means, in order. */
  ghost function Replicates(stream: Stream, values: seq<SignedPpm>, replicates: nat, from: nat): (r: seq<int>)
    requires 0 < |values| < TWO64 && LiveBelow(stream, AcceptanceLimit(|values|))
    ensures |r| == replicates
    decreases replicates
  {
    if replicates == 0 then []
    else
      var sample := SampleSum(stream, values, |values|, 0, from);
      [MeanOfSum(sample.0, |values|)] + Replicates(stream, values, replicates - 1, sample.1)
  }

  function PercentileIndex(replicates: u64): nat {
    SaturatingSub(CeilDiv(if replicates * 25 < TWO64 then replicates * 25 else U64_MAX, 1_000), 1)
  }

  predicate IntLeq(a: int, b: int) {
    a <= b
  }

  /** `bootstrap_lower_95`. */
  ghost function BootstrapLower95(values: seq<SignedPpm>, replicates: u64, stream: Stream): int
    requires |values| < TWO64 && (values != [] ==> LiveBelow(stream, AcceptanceLimit(|values|)))
  {
    if values == [] || replicates == 0 then 0
    else SortBy(IntLeq, Replicates(stream, values, replicates, 0))[Min(PercentileIndex(replicates), replicates - 1)]
  }

  method RunBootstrap(values: seq<SignedPpm>, replicates: u64, stream: Stream) returns (bound: SignedPpm)
    requires |values| < TWO64 && (values != [] ==> LiveBelow(stream, AcceptanceLimit(|values|)))
    ensures bound == BootstrapLower95(values, replicates, stream)
  {
    hide IndexDraw, SortBy, MeanOfSum;
    if values == [] || replicates == 0 {
      return 0;
    }
    var rng := new Generator(stream);
    var means: seq<int> := [];
    for r := 0 to replicates
      invariant rng.stream == stream && |means| == r
      invariant means + Replicates(stream, values, replicates - r, rng.position) ==
        Replicates(stream, values, replicates, 0)
    {
      var sum: int := 0;
      ghost var start := rng.position;
      for i := 0 to |values|
        invariant rng.stream == stream
        invariant SampleSum(stream, values, |values| - i, sum, rng.position) ==
          SampleSum(stream, values, |values|, 0, start)
      {
        var index := BoundedIndex(rng, |values|);
        sum := SaturatingAddI64(sum, values[index]);
      }
      var mean := MeanOfSum(sum, |values|);
      ghost var rest := Replicates(stream, values, replicates - r - 1, rng.position);
      assert Replicates(stream, values, replicates - r, start) == [mean] + rest;
      assert means + ([mean] + rest) == (means + [mean]) + rest;
      means := means + [mean];
    }
    assert means + [] == means;
    var sorted := SortBy(IntLeq, means);
    BoundInRange(values, replicates, stream);
    bound := sorted[Min(PercentileIndex(replicates), replicates - 1)];
  }

  // ---------- every mean is in range ----------

  lemma {:induction false} SampleSumRange(stream: Stream, values: seq<SignedPpm>, count: nat, sum: int, from: nat,
      spent: nat)
    requires 0 < |values| < TWO64 && LiveBelow(stream, AcceptanceLimit(|values|))
    requires -I64_MAX - 1 <= sum <= I64_MAX && -(spent * SCALE) <= sum <= spent * SCALE
    ensures var r := SampleSum(stream, values, count, sum, from).0;
      -I64_MAX - 1 <= r <= I64_MAX && -((spent + count) * SCALE) <= r <= (spent + count) * SCALE
    decreases count
  {
    hide IndexDraw;
    if count > 0 {
      var drawn := IndexDraw(stream, |values|, from);
      SampleSumRange(stream, values, count - 1, SaturatingAddI64(sum, values[drawn.0]), drawn.1, spent + 1);
    }
  }

  lemma {:induction false} MeanInRange(sum: int, count: nat)
    requires count > 0 && -I64_MAX - 1 <= sum <= I64_MAX && -(count * SCALE) <= sum <= count * SCALE
    ensures -SCALE <= MeanOfSum(sum, count) <= SCALE
  {
    if count <= I64_MAX {
      assert -SCALE * count == -(count * SCALE);
      FloorBounds(sum, count, -SCALE, SCALE);
    }
  }

  lemma {:induction false} FloorBounds(sum: int, count: nat, low: int, high: int)
    requires count > 0 && low * count <= sum <= high * count
    ensures low <= sum / count <= high
  {
    var q := sum / count;
    assert sum == q * count + sum % count;
    if q < low {
      ProductGap(q, low, count);
      assert false;
    }
    if q > high {
      ProductGap(high, q, count);
      assert false;
    }
  }

  lemma {:induction false} ProductGap(a: int, b: int, count: nat)
    requires a < b
    ensures a * count + count <= b * count
    decreases b - a
  {
    assert b * count == (b - 1) * count + count;
    if a < b - 1 {
      ProductGap(a, b - 1, count);
    }
  }

  lemma {:induction false} ReplicatesInRange(stream: Stream, values: seq<SignedPpm>, replicates: nat, from: nat)
    requires 0 < |values| < TWO64 && LiveBelow(stream, AcceptanceLimit(|values|))
    ensures forall m :: m in Replicates(stream, values, replicates, from) ==> -SCALE <= m <= SCALE
    decreases replicates
  {
    hide SampleSum, MeanOfSum;
    if replicates > 0 {
      var sample := SampleSum(stream, values, |values|, 0, from);
      SampleSumRange(stream, values, |values|, 0, from, 0);
      MeanInRange(sample.0, |values|);
      ReplicatesInRange(stream, values, replicates - 1, sample.1);
    }
  }

  /** The bound always satisfies the range check of its type, so constructing it never panics. */
  lemma {:induction false} BoundInRange(values: seq<SignedPpm>, replicates: u64, stream: Stream)
    requires |values| < TWO64 && (values != [] ==> LiveBelow(stream, AcceptanceLimit(|values|)))
    ensures -SCALE <= BootstrapLower95(values, replicates, stream) <= SCALE
  {
    hide SortBy, Replicates;
    if values != [] && replicates > 0 {
      var means := Replicates(stream, values, replicates, 0);
      ReplicatesInRange(stream, values, replicates, 0);
      MembersOfMultiset(means, SortBy(IntLeq, means));
      assert BootstrapLower95(values, replicates, stream) in SortBy(IntLeq, means);
    }
  }

  // ---------- between the smallest and the largest observation ----------

  lemma {:induction false} Distribute(a: int, n: nat)
    ensures a * (n + 1) == a * n + a
  {
  }

  /** Whatever is drawn, the saturated sum stays between the saturated multiples of any bounds. */
  lemma {:induction false} SampleSumBetween(stream: Stream, values: seq<SignedPpm>, count: nat, sum: int, from: nat,
      spent: nat, low: int, high: int)
    requires 0 < |values| < TWO64 && LiveBelow(stream, AcceptanceLimit(|values|))
    requires forall v :: v in values ==> low <= v <= high
    requires -I64_MAX - 1 <= sum <= I64_MAX
    requires Min(I64_MAX, low * spent) <= sum <= Max(-I64_MAX - 1, high * spent)
    ensures var r := SampleSum(stream, values, count, sum, from).0;
      && -I64_MAX - 1 <= r <= I64_MAX
      && Min(I64_MAX, low * (spent + count)) <= r <= Max(-I64_MAX - 1, high * (spent + count))
    decreases count
  {
    hide IndexDraw;
    if count > 0 {
      var drawn := IndexDraw(stream, |values|, from);
      var v := values[drawn.0];
      assert v in values;
      StaysAbove(sum, v, low, spent);
      StaysBelow(sum, v, high, spent);
      SampleSumBetween(stream, values, count - 1, SaturatingAddI64(sum, v), drawn.1, spent + 1, low, high);
    }
  }

  lemma {:induction false} StaysAbove(sum: int, v: int, low: int, spent: nat)
    requires low <= v && Min(I64_MAX, low * spent) <= sum <= I64_MAX
    ensures SaturatingAddI64(sum, v) >= Min(I64_MAX, low * (spent + 1))
  {
    Distribute(low, spent);
    if low < 0 {
      NegativeProduct(low, spent);
    }
  }

  lemma {:induction false} StaysBelow(sum: int, v: int, high: int, spent: nat)
    requires v <= high && -I64_MAX - 1 <= sum <= Max(-I64_MAX - 1, high * spent)
    ensures SaturatingAddI64(sum, v) <= Max(-I64_MAX - 1, high * (spent + 1))
  {
    Distribute(high, spent);
    if high > 0 {
      NegativeProduct(-high, spent);
      assert -high * spent == -(high * spent);
    }
  }

  lemma {:induction false} NegativeProduct(a: int, n: nat)
    requires a <= 0
    ensures a * n <= 0
  {
    if n > 0 {
      NegativeProduct(a, n - 1);
      Distribute(a, n - 1);
    }
  }

  /** No sum of this many observations is forced out of the 64-bit range by its bounds. */
  predicate SumsFit(count: nat, low: int, high: int) {
    low * count <= I64_MAX && (high + 1) * count > -I64_MAX - 1
  }

  lemma {:induction false} MeanBetween(sum: int, count: nat, low: int, high: int)
    requires 0 < count <= I64_MAX && -I64_MAX - 1 <= sum <= I64_MAX
    requires Min(I64_MAX, low * count) <= sum <= Max(-I64_MAX - 1, high * count)
    ensures low <= MeanOfSum(sum, count) <= high <==> SumsFit(count, low, high)
  {
    var q := MeanOfSum(sum, count);
    assert (high + 1) * count == high * count + count;
    assert sum == q * count + sum % count;
    if low * count > I64_MAX {
      BelowQuotient(q, low, count, sum);
    } else if (high + 1) * count <= -I64_MAX - 1 {
      AboveQuotient(q, high + 1, count, sum);
    } else {
      AboveQuotient(q, low, count, sum);
      BelowQuotient(q, high + 1, count, sum);
    }
  }

  lemma {:induction false} BelowQuotient(q: int, limit: int, count: nat, sum: int)
    requires count > 0 && q * count <= sum < limit * count
    ensures q < limit
  {
    if q > limit {
      ProductGap(limit, q, count);
      assert false;
    }
  }

  lemma {:induction false} AboveQuotient(q: int, limit: int, count: nat, sum: int)
    requires count > 0 && limit * count <= sum < q * count + count
    ensures q >= limit
  {
    if q < limit {
      ProductGap(q, limit, count);
      assert false;
    }
  }

  lemma {:induction false} ReplicatesBetween(stream: Stream, values: seq<SignedPpm>, replicates: nat, from: nat,
      low: int, high: int)
    requires 0 < |values| <= I64_MAX && LiveBelow(stream, AcceptanceLimit(|values|))
    requires forall v :: v in values ==> low <= v <= high
    ensures forall m :: m in Replicates(stream, values, replicates, from) ==>
      (low <= m <= high <==> SumsFit(|values|, low, high))
    decreases replicates
  {
    hide SampleSum, MeanOfSum, SumsFit;
    if replicates > 0 {
      var sample := SampleSum(stream, values, |values|, 0, from);
      SampleSumBetween(stream, values, |values|, 0, from, 0, low, high);
      MeanBetween(sample.0, |values|, low, high);
      ReplicatesBetween(stream, values, replicates - 1, sample.1, low, high);
    }
  }

  /** The position never needs its cap: it is the rank of the lower 2.5th percentile. */
  lemma {:induction false} PercentileNeverCaps(replicates: u64)
    requires replicates > 0
    ensures PercentileIndex(replicates) <= replicates - 1
    ensures replicates * 25 < TWO64 ==>
      PercentileIndex(replicates) * 1_000 < replicates * 25 <= (PercentileIndex(replicates) + 1) * 1_000
  {
  }

  /** The bound lies between the smallest and the largest observation if and only if those two do
      not force the sum of that many observations out of 64 bits. A slice of four-byte
      observations never holds more than `i64::MAX` of them. */
  lemma {:induction false} BootstrapIsBetween(values: seq<SignedPpm>, replicates: u64, stream: Stream, low: int,
      high: int)
    requires 0 < |values| <= I64_MAX && replicates > 0 && LiveBelow(stream, AcceptanceLimit(|values|))
    requires forall v :: v in values ==> low <= v <= high
    ensures low <= BootstrapLower95(values, replicates, stream) <= high <==> SumsFit(|values|, low, high)
  {
    hide SortBy, Replicates, PercentileIndex, SumsFit;
    var means := Replicates(stream, values, replicates, 0);
    ReplicatesBetween(stream, values, replicates, 0, low, high);
    MembersOfMultiset(means, SortBy(IntLeq, means));
    assert BootstrapLower95(values, replicates, stream) in SortBy(IntLeq, means);
  }

  /** Below 9.2 * 10^12 observations the condition always holds. */
  lemma {:induction false} ShortInputsFit(count: nat, low: int, high: int)
    requires -SCALE <= low <= high <= SCALE && count * SCALE < TWO63
    ensures SumsFit(count, low, high)
  {
    ProductAtMost(low, count);
    ProductAtLeast(high, count);
    assert (high + 1) * count == high * count + count;
  }

  lemma {:induction false} ProductAtLeast(low: int, n: nat)
    requires low >= -SCALE
    ensures low * n >= -SCALE * n
  {
    if n > 0 {
      ProductAtLeast(low, n - 1);
      assert low * n == low * (n - 1) + low;
    }
  }

  lemma {:induction false} ProductAtMost(high: int, n: nat)
    requires high <= SCALE
    ensures high * n <= SCALE * n
  {
    if n > 0 {
      ProductAtMost(high, n - 1);
      assert high * n == high * (n - 1) + high;
    }
  }

  /** Every longer input of maximal observations saturates its sums and pushes the bound below all
      of them. */
  lemma {:induction false} SaturationBreaksBound(values: seq<SignedPpm>, replicates: u64, stream: Stream)
    requires 0 < |values| <= I64_MAX && replicates > 0 && LiveBelow(stream, AcceptanceLimit(|values|))
    requires |values| * SCALE >= TWO63 && forall v :: v in values ==> v == SCALE
    ensures BootstrapLower95(values, replicates, stream) < SCALE
  {
    hide Replicates, BootstrapLower95;
    BoundInRange(values, replicates, stream);
    BootstrapIsBetween(values, replicates, stream, SCALE, SCALE);
  }

  /** The bound sits at its rank among the sorted replicate means. */
  lemma {:induction false} BootstrapIsOrderStatistic(values: seq<SignedPpm>, replicates: u64, stream: Stream)
    requires 0 < |values| < TWO64 && replicates > 0 && LiveBelow(stream, AcceptanceLimit(|values|))
    ensures var sorted := SortBy(IntLeq, Replicates(stream, values, replicates, 0));
      var bound := BootstrapLower95(values, replicates, stream);
      var rank := PercentileIndex(replicates);
      && multiset(sorted) == multiset(Replicates(stream, values, replicates, 0))
      && rank < |sorted| && bound == sorted[rank]
      && (forall i :: 0 <= i <= rank ==> sorted[i] <= bound)
      && (forall i :: rank <= i < |sorted| ==> bound <= sorted[i])
  {
    hide SortBy, Replicates, PercentileIndex;
    var means := Replicates(stream, values, replicates, 0);
    var sorted := SortBy(IntLeq, means);
    PercentileNeverCaps(replicates);
    assert TotalPreorder(IntLeq);
    SortSorts(IntLeq, means);
    assert forall i, j :: 0 <= i < j < |sorted| ==> IntLeq(sorted[i], sorted[j]);
  }
}
