/** The lottery is exactly fair: accepted draws hit every residue equally often, so every
    ordered selection comes from the same number of accepted draw vectors. */
module Fairness {
  import opened Numbers
  import opened Lottery

  // ---------- residues in an interval ----------

  function Residues(low: nat, high: nat, modulus: nat, residue: nat): set<nat>
    requires modulus > 0
  {
    set v: nat | low <= v < high && v % modulus == residue
  }

  lemma {:induction false} MulGap(j: nat, k: nat, m: nat)
    requires j < k
    ensures j * m + m <= k * m
  {
    assert k * m == (k - 1) * m + m;
    if j < k - 1 {
      MulGap(j, k - 1, m);
    }
  }

  lemma {:induction false} DivisionIsUnique(a: nat, m: nat, q: nat, r: nat)
    requires m > 0 && a == q * m + r && r < m
    ensures a / m == q && a % m == r
  {
    var p := a / m;
    assert a == p * m + a % m;
    if p < q {
      MulGap(p, q, m);
    } else if q < p {
      MulGap(q, p, m);
    }
  }

  lemma {:induction false} SameResidue(a: nat, b: nat, m: nat)
    requires m > 0 && a % m == b % m && a <= b < a + m
    ensures a == b
  {
    var p, q := a / m, b / m;
    assert a == p * m + a % m && b == q * m + b % m;
    assert p <= q by {
      if q < p {
        MulGap(q, p, m);
        assert false;
      }
    }
    if p < q {
      MulGap(p, q, m);
    }
  }

  /** Each block of `m` consecutive numbers holds each residue once. */
  lemma {:induction false} BlockHasResidue(low: nat, m: nat, r: nat) returns (v: nat)
    requires m > 0 && r < m
    ensures low <= v < low + m && v % m == r
  {
    var p := low / m;
    assert low == p * m + low % m;
    v := if low % m <= r then p * m + r else (p + 1) * m + r;
    assert (p + 1) * m == p * m + m;
    DivisionIsUnique(v, m, if low % m <= r then p else p + 1, r);
  }

  lemma {:induction false} ResidueCount(low: nat, blocks: nat, m: nat, r: nat)
    requires m > 0 && r < m
    ensures |Residues(low, low + blocks * m, m, r)| == blocks
  {
    if blocks == 0 {
      assert Residues(low, low + 0 * m, m, r) == {};
    } else {
      var before := low + (blocks - 1) * m;
      assert before + m == low + blocks * m && before >= low by {
        assert (blocks - 1) * m + m == blocks * m;
        assert (blocks - 1) * m >= 0;
      }
      ResidueCount(low, blocks - 1, m, r);
      var v := BlockHasResidue(before, m, r);
      var all, rest := Residues(low, before + m, m, r), Residues(low, before, m, r);
      assert v !in rest;
      forall w | w in all ensures w in rest + {v} {
        if w >= before {
          if w <= v { SameResidue(w, v, m); } else { SameResidue(v, w, m); }
        }
      }
      assert all == rest + {v};
    }
  }

  // ---------- the two rejection schemes ----------

  /** The draws that `uniform_below` accepts and reduces to `residue`. */
  function AcceptedDraws(bound: u64, residue: nat): set<nat>
    requires bound > 0
  {
    set v: nat | v < TWO64 && Accepts(bound, v) && v % bound == residue
  }

  /** How many accepted draws each value gets. */
  function Quota(bound: u64): nat
    requires bound > 0
  {
    (TWO64 - RejectionThreshold(bound)) / bound
  }

  lemma {:induction false} ThresholdIsRemainder(bound: u64)
    requires bound > 0
    ensures RejectionThreshold(bound) == TWO64 % bound < bound
    ensures TWO64 == RejectionThreshold(bound) + Quota(bound) * bound
    ensures Quota(bound) > 0
  {
    var q := (TWO64 - bound) / bound;
    var t := RejectionThreshold(bound);
    assert TWO64 - bound == q * bound + t;
    assert (q + 1) * bound == q * bound + bound;
    DivisionIsUnique(TWO64, bound, q + 1, t);
    DivisionIsUnique(TWO64 - t, bound, q + 1, 0);
  }

  /** `uniform_below` is exactly balanced: every value below the bound comes from the same
      number of accepted draws, and rejected draws are only the incomplete last block. */
  lemma {:induction false} UniformBelowIsBalanced(bound: u64, residue: nat)
    requires bound >= 2 && residue < bound
    ensures |AcceptedDraws(bound, residue)| == Quota(bound) > 0
    ensures RejectionThreshold(bound) == TWO64 % bound
  {
    ThresholdIsRemainder(bound);
    ResidueCount(RejectionThreshold(bound), Quota(bound), bound, residue);
    assert AcceptedDraws(bound, residue) ==
      Residues(RejectionThreshold(bound), RejectionThreshold(bound) + Quota(bound) * bound, bound, residue);
  }

  /** `bounded_index` accepts the draws below a multiple of its bound. */
  function AcceptanceLimit(upper: u64): nat
    requires upper > 0
  {
    U64_MAX - U64_MAX % upper
  }

  lemma {:induction false} BoundedIndexIsBalanced(upper: u64, residue: nat)
    requires upper > 0 && residue < upper
    ensures |set v: nat | v < AcceptanceLimit(upper) && v % upper == residue| == AcceptanceLimit(upper) / upper > 0
  {
    var blocks := U64_MAX / upper;
    assert U64_MAX == blocks * upper + U64_MAX % upper;
    ResidueCount(0, blocks, upper, residue);
    assert (set v: nat | v < AcceptanceLimit(upper) && v % upper == residue) ==
      Residues(0, 0 + blocks * upper, upper, residue);
    DivisionIsUnique(blocks * upper, upper, blocks, 0);
    assert blocks > 0 by {
      DivisionIsPositive(U64_MAX, upper);
    }
  }

  lemma {:induction false} DivisionIsPositive(a: nat, m: nat)
    requires 0 < m <= a
    ensures a / m > 0
  {
    var q := a / m;
    assert a == q * m + a % m;
    assert q * m > 0;
    if q <= 0 {
      NonPositiveProduct(q, m);
    }
  }

  lemma {:induction false} NonPositiveProduct(q: int, m: nat)
    requires q <= 0
    ensures q * m <= 0
  {
  }

  // ---------- vectors of accepted draws ----------

  /** The draws that yield one offset; a bound of one draws nothing, written as a single zero. */
  function DrawsFor(bound: u64, offset: nat): set<nat>
    requires bound > 0
  {
    if bound == 1 then (if offset == 0 then {0} else {}) else AcceptedDraws(bound, offset)
  }

  function Weight(bound: u64): nat
    requires bound > 0
  {
    if bound == 1 then 1 else Quota(bound)
  }

  /** One accepted draw per slot, for `n` positions. */
  ghost predicate AcceptedVector(n: nat, slot: nat, draws: seq<nat>)
    requires n < TWO64
  {
    && slot + |draws| <= n
    && forall i :: 0 <= i < |draws| ==> draws[i] in DrawsFor(n - slot - i, OffsetOf(n - slot - i, draws[i]))
  }

  function OffsetOf(bound: u64, draw: nat): nat
    requires bound > 0
  {
    if bound == 1 then 0 else draw % bound
  }

  /** The offsets a draw vector reduces to. */
  ghost function Reduced(n: nat, slot: nat, draws: seq<nat>): (r: seq<nat>)
    requires n < TWO64 && slot + |draws| <= n
    ensures |r| == |draws|
    ensures forall i :: 0 <= i < |r| ==> r[i] == OffsetOf(n - slot - i, draws[i])
  {
    seq(|draws|, i requires 0 <= i < |draws| => OffsetOf(n - slot - i, draws[i]))
  }

  lemma {:induction false} ReducedIsValid(n: nat, draws: seq<nat>)
    requires n < TWO64 && AcceptedVector(n, 0, draws)
    ensures ValidOffsets(n, 0, Reduced(n, 0, draws))
  {
  }

  /** All draw vectors that reduce to the given offsets. */
  ghost function VectorsFor(n: nat, slot: nat, offsets: seq<nat>): set<seq<nat>>
    requires n < TWO64 && ValidOffsets(n, slot, offsets)
    decreases |offsets|
  {
    if offsets == [] then {[]}
    else Prefixed(DrawsFor(n - slot, offsets[0]), VectorsFor(n, slot + 1, offsets[1..]))
  }

  function Prefixed(heads: set<nat>, tails: set<seq<nat>>): set<seq<nat>> {
    set h, t | h in heads && t in tails :: [h] + t
  }

  ghost function Ways(n: nat, slot: nat, count: nat): nat
    requires slot + count <= n < TWO64
    decreases count
  {
    if count == 0 then 1 else Weight(n - slot) * Ways(n, slot + 1, count - 1)
  }

  lemma {:induction false} PrefixedCount(heads: set<nat>, tails: set<seq<nat>>)
    ensures |Prefixed(heads, tails)| == |heads| * |tails|
  {
    if heads == {} {
      assert Prefixed(heads, tails) == {};
    } else {
      var h :| h in heads;
      var rest := heads - {h};
      PrefixedCount(rest, tails);
      OneHeadCount(h, tails);
      var one, others := Prefixed({h}, tails), Prefixed(rest, tails);
      forall v | v in one ensures v !in others {
        HeadInPrefixed({h}, tails, v);
        HeadInPrefixed(rest, tails, v);
      }
      assert Prefixed(heads, tails) == one + others;
      assert |heads| == |rest| + 1;
      assert (|rest| + 1) * |tails| == |rest| * |tails| + |tails|;
    }
  }

  lemma {:induction false} OneHeadCount(h: nat, tails: set<seq<nat>>)
    ensures |Prefixed({h}, tails)| == |tails|
  {
    if tails == {} {
      assert Prefixed({h}, tails) == {};
    } else {
      var t :| t in tails;
      OneHeadCount(h, tails - {t});
      var rest := Prefixed({h}, tails - {t});
      assert ([h] + t)[1..] == t;
      HeadInPrefixed({h}, tails - {t}, [h] + t);
      forall v | v in Prefixed({h}, tails) ensures v in rest + {[h] + t} {
        HeadInPrefixed({h}, tails, v);
        HeadInPrefixed({h}, tails - {t}, v);
        assert v == [v[0]] + v[1..];
      }
      assert Prefixed({h}, tails) == rest + {[h] + t};
    }
  }

  lemma {:induction false} VectorCount(n: nat, slot: nat, offsets: seq<nat>)
    requires n < TWO64 && ValidOffsets(n, slot, offsets)
    ensures |VectorsFor(n, slot, offsets)| == Ways(n, slot, |offsets|)
    decreases |offsets|
  {
    if offsets != [] {
      VectorCount(n, slot + 1, offsets[1..]);
      PrefixedCount(DrawsFor(n - slot, offsets[0]), VectorsFor(n, slot + 1, offsets[1..]));
      if n - slot > 1 {
        UniformBelowIsBalanced(n - slot, offsets[0]);
      }
    }
  }

  /** Membership: exactly the accepted vectors that reduce to the offsets. */
  lemma {:induction false} VectorsAreExact(n: nat, slot: nat, offsets: seq<nat>, draws: seq<nat>)
    requires n < TWO64 && ValidOffsets(n, slot, offsets)
    ensures draws in VectorsFor(n, slot, offsets) <==> Exact(n, slot, offsets, draws)
    decreases |offsets|
  {
    hide DrawsFor, AcceptedVector, OffsetOf;
    if offsets == [] {
      EmptyIsExact(n, slot, draws);
    } else if draws == [] {
      NotInPrefixed(DrawsFor(n - slot, offsets[0]), VectorsFor(n, slot + 1, offsets[1..]));
    } else {
      VectorsAreExact(n, slot + 1, offsets[1..], draws[1..]);
      HeadInPrefixed(DrawsFor(n - slot, offsets[0]), VectorsFor(n, slot + 1, offsets[1..]), draws);
      ExactCons(n, slot, offsets, draws);
    }
  }

  ghost predicate Exact(n: nat, slot: nat, offsets: seq<nat>, draws: seq<nat>)
    requires n < TWO64
  {
    AcceptedVector(n, slot, draws) && slot + |draws| <= n && Reduced(n, slot, draws) == offsets
  }

  lemma {:induction false} EmptyIsExact(n: nat, slot: nat, draws: seq<nat>)
    requires n < TWO64 && slot <= n
    ensures Exact(n, slot, [], draws) <==> draws == []
  {
  }

  lemma {:induction false} NotInPrefixed(heads: set<nat>, tails: set<seq<nat>>)
    ensures [] !in Prefixed(heads, tails)
  {
  }

  lemma {:induction false} ExactCons(n: nat, slot: nat, offsets: seq<nat>, draws: seq<nat>)
    requires n < TWO64 && slot < n && offsets != [] && draws != []
    ensures Exact(n, slot, offsets, draws) <==>
      draws[0] in DrawsFor(n - slot, offsets[0]) && Exact(n, slot + 1, offsets[1..], draws[1..])
  {
    hide AcceptedVector;
    VectorCons(n, slot, draws);
    OffsetOfDraw(n - slot, offsets[0], draws[0]);
    if slot + |draws| <= n {
      hide DrawsFor, OffsetOf;
      var all := Reduced(n, slot, draws);
      assert all[0] == OffsetOf(n - slot, draws[0]);
      assert all[1..] == Reduced(n, slot + 1, draws[1..]);
      assert all == [all[0]] + all[1..] && offsets == [offsets[0]] + offsets[1..];
    }
  }

  lemma {:induction false} OffsetOfDraw(bound: u64, offset: nat, draw: nat)
    requires bound > 0
    ensures draw in DrawsFor(bound, offset) <==>
      OffsetOf(bound, draw) == offset && draw in DrawsFor(bound, OffsetOf(bound, draw))
  {
  }

  lemma {:induction false} HeadInPrefixed(heads: set<nat>, tails: set<seq<nat>>, v: seq<nat>)
    requires v != []
    ensures v in Prefixed(heads, tails) <==> v[0] in heads && v[1..] in tails
  {
    if v in Prefixed(heads, tails) {
      var h, t :| h in heads && t in tails && v == [h] + t;
      assert v[1..] == t;
    }
    if v[0] in heads && v[1..] in tails {
      assert v == [v[0]] + v[1..];
    }
  }

  lemma {:induction false} VectorCons(n: nat, slot: nat, draws: seq<nat>)
    requires n < TWO64 && draws != []
    ensures AcceptedVector(n, slot, draws) <==>
      && slot < n && draws[0] in DrawsFor(n - slot, OffsetOf(n - slot, draws[0]))
      && AcceptedVector(n, slot + 1, draws[1..])
  {
    if slot + |draws| <= n {
      forall i | 0 <= i < |draws[1..]|
        ensures draws[1..][i] == draws[i + 1] && n - (slot + 1) - i == n - slot - (i + 1)
      {
      }
      if AcceptedVector(n, slot + 1, draws[1..]) && draws[0] in DrawsFor(n - slot, OffsetOf(n - slot, draws[0])) {
        forall i | 0 <= i < |draws| ensures draws[i] in DrawsFor(n - slot - i, OffsetOf(n - slot - i, draws[i])) {
          if i > 0 {
            assert draws[1..][i - 1] == draws[i];
          }
        }
      }
    }
  }

  // ---------- the draws of a stream ----------

  /** The draw accepted for one slot; a bound of one draws nothing, written as zero. */
  ghost function AcceptedDraw(stream: Stream, bound: u64, from: nat): (draw: nat)
    requires Live(stream) && bound > 0
    ensures OffsetOf(bound, draw) == BoundedDraw(stream, bound, from).0
    ensures draw in DrawsFor(bound, OffsetOf(bound, draw))
  {
    if bound == 1 then 0
    else
      assert HasAccepted(stream, bound, from);
      stream(NextAccepted(stream, bound, from))
  }

  /** The accepted draws behind `DrawOffsets`, slot by slot. */
  ghost function AcceptedFrom(stream: Stream, n: nat, slot: nat, count: nat, from: nat): (r: seq<nat>)
    requires Live(stream) && slot + count <= n < TWO64
    ensures |r| == count
    decreases count
  {
    if count == 0 then []
    else
      [AcceptedDraw(stream, n - slot, from)]
        + AcceptedFrom(stream, n, slot + 1, count - 1, BoundedDraw(stream, n - slot, from).1)
  }

  lemma {:induction false} AcceptedStep(stream: Stream, n: nat, slot: nat, count: nat, from: nat)
    requires Live(stream) && slot + count <= n < TWO64 && count > 0
    ensures var all := AcceptedFrom(stream, n, slot, count, from);
      && all[0] == AcceptedDraw(stream, n - slot, from)
      && all[1..] == AcceptedFrom(stream, n, slot + 1, count - 1, BoundedDraw(stream, n - slot, from).1)
  {
    hide AcceptedDraw, BoundedDraw;
    var rest := AcceptedFrom(stream, n, slot + 1, count - 1, BoundedDraw(stream, n - slot, from).1);
    assert ([AcceptedDraw(stream, n - slot, from)] + rest)[1..] == rest;
  }

  lemma {:induction false} StreamIsAccepted(stream: Stream, n: nat, slot: nat, count: nat, from: nat)
    requires Live(stream) && slot + count <= n < TWO64
    ensures AcceptedVector(n, slot, AcceptedFrom(stream, n, slot, count, from))
    decreases count
  {
    hide AcceptedDraw, BoundedDraw, AcceptedFrom, DrawsFor, OffsetOf, Live;
    if count > 0 {
      hide AcceptedVector;
      AcceptedStep(stream, n, slot, count, from);
      StreamIsAccepted(stream, n, slot + 1, count - 1, BoundedDraw(stream, n - slot, from).1);
      VectorCons(n, slot, AcceptedFrom(stream, n, slot, count, from));
    }
  }

  lemma {:induction false} StreamReduces(stream: Stream, n: nat, slot: nat, count: nat, from: nat)
    requires Live(stream) && slot + count <= n < TWO64
    ensures Reduced(n, slot, AcceptedFrom(stream, n, slot, count, from)) == DrawOffsets(stream, n, slot, count, from)
    decreases count
  {
    hide AcceptedDraw, BoundedDraw, AcceptedFrom, DrawOffsets, OffsetOf, Live, Reduced, ValidOffsets, DrawsFor;
    if count > 0 {
      var draws := AcceptedFrom(stream, n, slot, count, from);
      var offsets := DrawOffsets(stream, n, slot, count, from);
      var drawn := BoundedDraw(stream, n - slot, from);
      AcceptedStep(stream, n, slot, count, from);
      DrawStep(stream, n, slot, count, from);
      StreamReduces(stream, n, slot + 1, count - 1, drawn.1);
      ReducedCons(n, slot, draws, offsets);
    }
  }

  /** What the shuffle consumes is an accepted vector, and reduces to the offsets it uses. */
  lemma {:induction false} StreamGivesAcceptedVector(stream: Stream, n: nat, slot: nat, count: nat, from: nat)
    requires Live(stream) && slot + count <= n < TWO64
    ensures AcceptedVector(n, slot, AcceptedFrom(stream, n, slot, count, from))
    ensures Reduced(n, slot, AcceptedFrom(stream, n, slot, count, from)) == DrawOffsets(stream, n, slot, count, from)
  {
    StreamIsAccepted(stream, n, slot, count, from);
    StreamReduces(stream, n, slot, count, from);
  }

  lemma {:induction false} ReducedCons(n: nat, slot: nat, draws: seq<nat>, offsets: seq<nat>)
    requires n < TWO64 && draws != [] && offsets != [] && slot + |draws| <= n
    requires OffsetOf(n - slot, draws[0]) == offsets[0] && Reduced(n, slot + 1, draws[1..]) == offsets[1..]
    ensures Reduced(n, slot, draws) == offsets
  {
    hide OffsetOf;
    var all := Reduced(n, slot, draws);
    assert all[1..] == Reduced(n, slot + 1, draws[1..]);
    assert all == [all[0]] + all[1..] && offsets == [offsets[0]] + offsets[1..];
  }

  /** The accepted vectors that lead to a given ordered selection. */
  ghost predicate LeadsTo(n: nat, draws: seq<nat>, selection: seq<nat>)
    requires n < TWO64
  {
    && AcceptedVector(n, 0, draws)
    && ValidOffsets(n, 0, Reduced(n, 0, draws))
    && Select(n, Reduced(n, 0, draws)) == selection
  }

  /** The lottery on a stream is the selection that its own accepted draws lead to. */
  lemma {:induction false} StreamLeadsToSelection(stream: Stream, population: nat, count: nat)
    requires Live(stream) && population < TWO64
    ensures LeadsTo(population, AcceptedFrom(stream, population, 0, Min(count, population), 0),
                    PartialFisherYates(stream, population, count))
  {
    hide AcceptedVector, Select, BoundedDraw;
    var chosen := Min(count, population);
    StreamGivesAcceptedVector(stream, population, 0, chosen, 0);
    ReducedIsValid(population, AcceptedFrom(stream, population, 0, chosen, 0));
  }

  /** Every ordered selection of `k` out of `n` comes from exactly the same number of accepted
      draw vectors, namely the product of the quotas of its bounds. */
  lemma {:induction false} LotteryIsFair(n: nat, selection: seq<nat>)
    requires n < TWO64 && OrderedSelection(n, selection) && |selection| <= n
    ensures var vectors := VectorsFor(n, 0, OffsetsFor(n, selection));
      && |vectors| == Ways(n, 0, |selection|)
      && forall draws :: draws in vectors <==> LeadsTo(n, draws, selection)
  {
    hide VectorsFor, AcceptedVector, OrderedSelection, Select, Reduced;
    var offsets := OffsetsFor(n, selection);
    VectorCount(n, 0, offsets);
    forall draws ensures draws in VectorsFor(n, 0, offsets) <==> LeadsTo(n, draws, selection) {
      VectorsAreExact(n, 0, offsets, draws);
      if AcceptedVector(n, 0, draws) {
        ReducedIsValid(n, draws);
        SelectionIsOrdered(n, Reduced(n, 0, draws));
        SelectionIsBijective(n, Reduced(n, 0, draws), selection);
      }
    }
  }
}
