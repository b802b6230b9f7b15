/** Evaluation metrics in integers: graded NDCG at ten, and a bootstrap lower bound. */
module Metrics {
  import opened Numbers
  import opened Sequences
  import opened Fixed

  // ---------- discounted gain ----------

  /** floor(1 / log2(rank + 1) * 1_000_000) for the first ten ranks. */
  const DISCOUNTS: seq<nat> :=
    [1_000_000, 630_929, 500_000, 430_676, 386_852, 356_207, 333_333, 315_464, 301_029, 289_064]

  /** The grades at the first ranks, weighted by their discounts. */
  function Gain(grades: seq<nat>, discounts: seq<nat>): nat {
    if grades == [] || discounts == [] then 0
    else grades[0] * discounts[0] + Gain(grades[1..], discounts[1..])
  }

  function Positive(grades: seq<nat>): (r: seq<nat>)
    ensures forall g :: g in r ==> g > 0
  {
    if grades == [] then [] else (if grades[0] > 0 then [grades[0]] else []) + Positive(grades[1..])
  }

  predicate Descending(a: nat, b: nat) {
    a >= b
  }

  function IdealGrades(judged: seq<u32>): seq<nat> {
    SortBy(Descending, Positive(judged))
  }

  function Dcg(grades: seq<nat>): nat {
    Gain(grades, DISCOUNTS)
  }

  /** `ndcg_at_10`: returned grades in rank order against the complete judgments. */
  function NdcgAt10(returned: seq<u32>, judged: seq<u32>): (r: Ppm) {
    var ideal := Dcg(IdealGrades(judged));
    if IdealGrades(judged) == [] || ideal == 0 then 0
    else
      DivisionBounds(Dcg(returned) * SCALE, ideal);
      Min(Dcg(returned) * SCALE / ideal, SCALE)
  }

  // ---------- the rearrangement inequality ----------

  function Total(s: seq<nat>): nat {
    if s == [] then 0 else s[0] + Total(s[1..])
  }

  /** The sum of the first `k` members, or of all. */
  function FirstSum(s: seq<nat>, k: nat): nat {
    if k == 0 || s == [] then 0 else s[0] + FirstSum(s[1..], k - 1)
  }

  predicate NonIncreasing(s: seq<nat>) {
    forall i, j :: 0 <= i < j < |s| ==> s[i] >= s[j]
  }

  function Head(s: seq<nat>): nat {
    if s == [] then 0 else s[0]
  }

  function Tail(s: seq<nat>): seq<nat> {
    if s == [] then [] else s[1..]
  }

  ghost predicate Dominated(s: seq<nat>, t: seq<nat>, slack: nat) {
    forall k: nat :: FirstSum(s, k) <= FirstSum(t, k) + slack
  }

  lemma {:induction false} DominatedTail(s: seq<nat>, t: seq<nat>, slack: nat)
    requires Dominated(s, t, slack)
    ensures Head(s) <= Head(t) + slack
    ensures Dominated(Tail(s), Tail(t), slack + Head(t) - Head(s))
  {
    FirstOne(s);
    FirstOne(t);
    assert FirstSum(s, 1) <= FirstSum(t, 1) + slack;
    hide Head, Tail, FirstSum;
    forall k: nat ensures FirstSum(Tail(s), k) <= FirstSum(Tail(t), k) + (slack + Head(t) - Head(s)) {
      assert FirstSum(s, k + 1) <= FirstSum(t, k + 1) + slack;
      FirstNext(s, k);
      FirstNext(t, k);
    }
  }

  lemma {:induction false} PartsStep(a: nat, b: nat, d: nat, next: nat, slack: nat, restS: nat, restT: nat)
    requires a <= b + slack && next <= d && restS <= restT + (slack + b - a) * next
    ensures a * d + restS <= b * d + restT + slack * d
  {
    MulMonotone(next, d, slack + b - a);
    assert (slack + b - a) * d == slack * d + b * d - a * d;
  }

  /** Summation by parts: dominated prefix sums and falling discounts bound the gain. */
  lemma {:induction false} GainDominated(s: seq<nat>, t: seq<nat>, discounts: seq<nat>, slack: nat)
    requires NonIncreasing(discounts) && Dominated(s, t, slack)
    ensures Gain(s, discounts) <= Gain(t, discounts) + slack * Head(discounts)
    decreases |discounts|
  {
    if discounts != [] {
      hide Gain, Dominated, FirstSum;
      var rest := discounts[1..];
      DominatedTail(s, t, slack);
      GainDominated(Tail(s), Tail(t), rest, slack + Head(t) - Head(s));
      GainNext(s, discounts);
      GainNext(t, discounts);
      assert Head(rest) <= discounts[0] by {
        if rest != [] {
          assert rest[0] == discounts[1] && discounts[0] >= discounts[1];
        }
      }
      PartsStep(Head(s), Head(t), discounts[0], Head(rest), slack, Gain(Tail(s), rest), Gain(Tail(t), rest));
    } else {
      EmptyGain(s);
    }
  }

  lemma {:induction false} EmptyGain(s: seq<nat>)
    ensures Gain(s, []) == 0
  {
  }

  lemma {:induction false} FirstOne(s: seq<nat>)
    ensures FirstSum(s, 1) == Head(s)
  {
    if s != [] {
      assert FirstSum(s[1..], 0) == 0;
    }
  }

  lemma {:induction false} FirstNext(s: seq<nat>, k: nat)
    ensures FirstSum(s, k + 1) == Head(s) + FirstSum(Tail(s), k)
  {
  }

  lemma {:induction false} GainNext(s: seq<nat>, discounts: seq<nat>)
    requires discounts != []
    ensures Gain(s, discounts) == Head(s) * discounts[0] + Gain(Tail(s), discounts[1..])
  {
  }

  lemma {:induction false} RemoveBoth(u: seq<nat>, t: seq<nat>, at: nat)
    requires t != [] && at < |u| && multiset(u) <= multiset(t)
    requires u[at] == t[0] || t[0] !in u
    ensures multiset(u[..at] + u[at + 1..]) <= multiset(t[1..])
  {
    var rest := u[..at] + u[at + 1..];
    assert u == u[..at] + [u[at]] + u[at + 1..] && t == [t[0]] + t[1..];
    assert multiset(u) == multiset(rest) + multiset{u[at]};
    assert multiset(t) == multiset(t[1..]) + multiset{t[0]};
    assert t[0] !in u ==> multiset(u)[t[0]] == 0;
    RemovedWithin(multiset(rest), multiset(t[1..]), u[at], t[0]);
  }

  lemma {:induction false} RemovedWithin(a: multiset<nat>, b: multiset<nat>, x: nat, y: nat)
    requires a + multiset{x} <= b + multiset{y} && (x == y || (a + multiset{x})[y] == 0)
    ensures a <= b
  {
    forall z ensures a[z] <= b[z] {
      assert (a + multiset{x})[z] <= (b + multiset{y})[z];
    }
  }

  /** No choice of at most `k` members beats the first `k` of a falling sequence. */
  lemma {:induction false} TopIsGreatest(u: seq<nat>, t: seq<nat>, k: nat)
    requires NonIncreasing(t) && multiset(u) <= multiset(t) && |u| <= k
    ensures Total(u) <= FirstSum(t, k)
    decreases |t|
  {
    if u != [] {
      hide NonIncreasing;
      assert u[0] in multiset(u) && u[0] in multiset(t);
      MemberAtMost(t, u[0]);
      var at := if t[0] in u then IndexOf(u, t[0]) else 0;
      RemoveBoth(u, t, at);
      RemovedTotal(u, at);
      TailFalls(t);
      TopIsGreatest(u[..at] + u[at + 1..], t[1..], k - 1);
    }
  }

  lemma {:induction false} TailFalls(t: seq<nat>)
    requires NonIncreasing(t) && t != []
    ensures NonIncreasing(t[1..])
  {
  }

  function IndexOf(s: seq<nat>, x: nat): (i: nat)
    requires x in s
    ensures i < |s| && s[i] == x
  {
    if s[0] == x then 0 else 1 + IndexOf(s[1..], x)
  }

  lemma {:induction false} MemberAtMost(t: seq<nat>, x: nat)
    requires NonIncreasing(t) && x in multiset(t)
    ensures t != [] && x <= t[0]
  {
    assert x in t;
  }

  lemma {:induction false} RemovedTotal(u: seq<nat>, at: nat)
    requires at < |u|
    ensures Total(u) == u[at] + Total(u[..at] + u[at + 1..])
  {
    if at == 0 {
      assert u[..0] + u[1..] == u[1..];
    } else {
      RemovedTotal(u[1..], at - 1);
      var rest := u[..at] + u[at + 1..];
      assert rest[0] == u[0] && rest[1..] == u[1..][..at - 1] + u[1..][at..];
    }
  }

  /** The first `k` grades add up to the positive ones among them. */
  lemma {:induction false} FirstSumIsPositive(s: seq<nat>, k: nat)
    ensures FirstSum(s, k) == Total(Positive(s[..Min(k, |s|)]))
    ensures |Positive(s[..Min(k, |s|)])| <= k
  {
    if k > 0 && s != [] {
      var n := Min(k, |s|);
      assert s[..n][1..] == s[1..][..n - 1];
      FirstSumIsPositive(s[1..], k - 1);
      var rest := Positive(s[1..][..n - 1]);
      assert ([s[0]] + rest)[1..] == rest && [] + rest == rest;
    }
  }

  lemma {:induction false} PositiveConcat(a: seq<nat>, b: seq<nat>)
    ensures Positive(a + b) == Positive(a) + Positive(b)
  {
    if a == [] {
      assert a + b == b;
    } else {
      assert (a + b)[1..] == a[1..] + b;
      PositiveConcat(a[1..], b);
    }
  }

  lemma {:induction false} PositivePrefix(s: seq<nat>, n: nat)
    requires n <= |s|
    ensures multiset(Positive(s[..n])) <= multiset(Positive(s))
  {
    assert s == s[..n] + s[n..];
    PositiveConcat(s[..n], s[n..]);
  }

  /** The returned positive grades are some of the judged ones. */
  ghost predicate ReturnsJudged(returned: seq<u32>, judged: seq<u32>) {
    multiset(Positive(returned)) <= multiset(Positive(judged))
  }

  lemma {:induction false} IdealIsFalling(judged: seq<u32>)
    ensures NonIncreasing(IdealGrades(judged)) && multiset(IdealGrades(judged)) == multiset(Positive(judged))
  {
    assert TotalPreorder(Descending);
    SortSorts(Descending, Positive(judged));
    var ideal := IdealGrades(judged);
    forall i, j | 0 <= i < j < |ideal| ensures ideal[i] >= ideal[j] {
      assert Descending(ideal[i], ideal[j]);
    }
  }

  lemma {:induction false} FirstAtMostIdeal(returned: seq<u32>, judged: seq<u32>, k: nat)
    requires ReturnsJudged(returned, judged)
    ensures FirstSum(returned, k) <= FirstSum(IdealGrades(judged), k)
  {
    hide IdealGrades, NonIncreasing, FirstSum, Positive;
    IdealIsFalling(judged);
    FirstSumIsPositive(returned, k);
    PositivePrefix(returned, Min(k, |returned|));
    TopIsGreatest(Positive(returned[..Min(k, |returned|)]), IdealGrades(judged), k);
  }

  /** Discounted gain of returned grades never exceeds the ideal one. */
  lemma {:induction false} ActualAtMostIdeal(returned: seq<u32>, judged: seq<u32>)
    requires ReturnsJudged(returned, judged)
    ensures Dcg(returned) <= Dcg(IdealGrades(judged))
  {
    hide IdealGrades, FirstSum, Gain, ReturnsJudged;
    forall k: nat ensures FirstSum(returned, k) <= FirstSum(IdealGrades(judged), k) + 0 {
      FirstAtMostIdeal(returned, judged, k);
    }
    GainDominated(returned, IdealGrades(judged), DISCOUNTS, 0);
  }

  /** With complete judgments the clamp never fires, and the full score is reached exactly when
      the actual gain is the ideal one. */
  lemma {:induction false} NdcgIsExact(returned: seq<u32>, judged: seq<u32>)
    requires ReturnsJudged(returned, judged) && Dcg(IdealGrades(judged)) > 0
    ensures NdcgAt10(returned, judged) == Dcg(returned) * SCALE / Dcg(IdealGrades(judged))
    ensures NdcgAt10(returned, judged) == SCALE <==> Dcg(returned) == Dcg(IdealGrades(judged))
  {
    hide Dcg;
    var actual, ideal := Dcg(returned), Dcg(IdealGrades(judged));
    ActualAtMostIdeal(returned, judged);
    assert IdealGrades(judged) != [] by { NothingIdeal(); }
    MulMonotone(actual, ideal, SCALE);
    QuotientAtMost(actual * SCALE, ideal, SCALE);
    if actual == ideal {
      QuotientAtLeast(actual * SCALE, ideal, SCALE);
    } else {
      assert actual * SCALE < SCALE * ideal;
      QuotientBelow(actual * SCALE, ideal, SCALE);
    }
  }

  lemma {:induction false} NothingIdeal()
    ensures Dcg([]) == 0
  {
  }

  /** The hypothesis matters: grades that were never judged do reach the clamp. */
  lemma {:induction false} UnjudgedGradesClamp()
    ensures !ReturnsJudged([2], [1]) && Dcg([2]) > Dcg(IdealGrades([1])) && NdcgAt10([2], [1]) == SCALE
  {
    assert Positive([2]) == [2] && Positive([1]) == [1];
    assert IdealGrades([1]) == [1];
    assert multiset([2])[2] == 1 && multiset([1])[2] == 0;
    assert Gain([1], DISCOUNTS) == 1_000_000 && Gain([2], DISCOUNTS) == 2_000_000;
  }
}
