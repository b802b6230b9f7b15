/** Fixed-point arithmetic in millionths. */
module Fixed {
  import opened Numbers

  const SCALE: int := 1_000_000

  type Ppm = n: int | 0 <= n <= 1_000_000

  /** Floor of an unsigned ratio, saturated to one; zero for a zero denominator. */
  function Ratio(numerator: u64, denominator: u64): (r: Ppm)
    ensures denominator > 0 && numerator <= denominator ==>
      r * denominator <= numerator * SCALE < (r + 1) * denominator
    ensures denominator > 0 && numerator >= denominator ==> r == SCALE
  {
    if denominator == 0 then 0
    else
      var scaled := numerator * SCALE / denominator;
      DivisionBounds(numerator * SCALE, denominator);
      if numerator >= denominator then
        QuotientAtLeast(numerator * SCALE, denominator, SCALE);
        Min(scaled, SCALE)
      else
        QuotientAtMost(numerator * SCALE, denominator, SCALE);
        Min(scaled, SCALE)
  }

  lemma {:induction false} DivisionBounds(a: nat, b: nat)
    requires b > 0
    ensures a / b >= 0 && a / b * b <= a < (a / b + 1) * b
  {
    assert a == a / b * b + a % b;
  }

  lemma {:induction false} QuotientAtLeast(a: nat, b: nat, q: nat)
    requires b > 0 && a >= q * b
    ensures a / b >= q
  {
    DivisionBounds(a, b);
    if a / b < q {
      MulMonotone(a / b + 1, q, b);
      assert false;
    }
  }

  lemma {:induction false} QuotientAtMost(a: nat, b: nat, q: nat)
    requires b > 0 && a <= q * b
    ensures a / b <= q
  {
    DivisionBounds(a, b);
    if a / b > q {
      MulMonotone(q + 1, a / b, b);
      assert false;
    }
  }

  lemma {:induction false} MulMonotone(a: nat, b: nat, c: nat)
    requires a <= b
    ensures a * c <= b * c
  {
    if a < b {
      assert b * c == (b - 1) * c + c;
      MulMonotone(a, b - 1, c);
    }
  }

  /** Floor fixed-point product; never larger than either factor. */
  function Multiply(a: Ppm, b: Ppm): (r: Ppm)
    ensures r <= a && r <= b
    ensures b == SCALE ==> r == a
    ensures b == 0 ==> r == 0
  {
    assert a * b <= a * SCALE && a * b <= b * SCALE && a * b >= 0 by {
      MulMonotone(b, SCALE, a);
      MulMonotone(a, SCALE, b);
    }
    a * b / SCALE
  }

  /** The whole millionths of a weighted value. */
  ghost predicate IsShare(share: int, weight: Ppm, value: Ppm) {
    share * SCALE <= weight * value < (share + 1) * SCALE
  }

  /** The product is the greatest number of millionths below the exact one. */
  lemma {:induction false} ProductIsFloor(a: Ppm, b: Ppm)
    ensures IsShare(Multiply(a, b), a, b)
    ensures forall share: int :: IsShare(share, a, b) ==> share == Multiply(a, b)
  {
    MulMonotone(0, b, a);
    DivisionBounds(a * b, SCALE);
    forall share: int | IsShare(share, a, b) ensures share == Multiply(a, b) {
      OneFloor(share, Multiply(a, b), a * b);
    }
  }

  lemma {:induction false} OneFloor(x: int, y: int, product: int)
    requires x * SCALE <= product < (x + 1) * SCALE && y * SCALE <= product < (y + 1) * SCALE
    ensures x == y
  {
  }

  lemma {:induction false} UnitProducts(weight: Ppm)
    ensures Multiply(weight, SCALE) == weight && Multiply(weight, 0) == 0
  {
  }

  function Sum(values: seq<nat>): nat {
    if values == [] then 0 else Sum(values[..|values| - 1]) + values[|values| - 1]
  }

  /** The mean rounded half up, zero for no values. */
  function MeanOf(values: seq<Ppm>): Ppm {
    if values == [] then 0
    else
      MeanWithinBounds(values, 0, SCALE);
      (Sum(values) + |values| / 2) / |values|
  }

  lemma {:induction false} OneMoreTerm(value: nat, count: nat)
    ensures value * (count + 1) == value * count + value
  {
  }

  lemma {:induction false} SumBounds(values: seq<nat>, low: nat, high: nat)
    requires forall v :: v in values ==> low <= v <= high
    ensures low * |values| <= Sum(values) <= high * |values|
  {
    if values != [] {
      var n := |values| - 1;
      assert values[n] in values && forall v :: v in values[..n] ==> v in values;
      SumBounds(values[..n], low, high);
      OneMoreTerm(low, n);
      OneMoreTerm(high, n);
    }
  }

  /** A rounded mean lies between any bounds on its values. */
  lemma {:induction false} MeanWithinBounds(values: seq<nat>, low: nat, high: nat)
    requires values != [] && forall v :: v in values ==> low <= v <= high
    ensures low <= (Sum(values) + |values| / 2) / |values| <= high
  {
    var n := |values|;
    SumBounds(values, low, high);
    QuotientAtLeast(Sum(values) + n / 2, n, low);
    assert (high + 1) * n == high * n + n;
    QuotientBelow(Sum(values) + n / 2, n, high + 1);
  }

  lemma {:induction false} QuotientBelow(a: nat, b: nat, q: nat)
    requires b > 0 && a < q * b
    ensures a / b < q
  {
    DivisionBounds(a, b);
    if a / b >= q {
      MulMonotone(q, a / b, b);
      assert false;
    }
  }

  /** One pass that counts and sums. */
  method Mean(values: seq<Ppm>) returns (r: Ppm)
    ensures r == MeanOf(values)
  {
    var count: nat, sum: nat := 0, 0;
    for i := 0 to |values|
      invariant count == i && sum == Sum(values[..i])
    {
      assert values[..i + 1][..i] == values[..i];
      count := count + 1;
      sum := sum + values[i];
    }
    assert values[..|values|] == values;
    if count > 0 {
      MeanWithinBounds(values, 0, SCALE);
    }
    r := if count == 0 then 0 else (sum + count / 2) / count;
  }

  /** `ceil(population * rate)`: the least count whose share reaches the rate. */
  function CeilCount(rate: Ppm, population: nat): (r: nat)
    ensures (r - 1) * SCALE < population * rate <= r * SCALE
    ensures r <= population
  {
    var numerator := population * rate;
    assert 0 <= numerator <= population * SCALE by {
      MulMonotone(rate, SCALE, population);
    }
    CeilDiv(numerator, SCALE)
  }

  lemma {:induction false} CeilCountMonotone(rate: Ppm, a: nat, b: nat)
    requires a <= b
    ensures CeilCount(rate, a) <= CeilCount(rate, b)
  {
    MulMonotone(a, b, rate);
  }

  /** The sum of several shares, capped at one. */
  function SumCapped(values: seq<Ppm>): Ppm {
    Min(Sum(values), SCALE)
  }
}
