/** Uniform selection without replacement: rejection sampling for unbiased offsets, and a
    partial Fisher-Yates shuffle. The generator is an arbitrary stream of 64-bit draws. */
module Lottery {
  import opened Numbers
  import opened Sequences

  type Stream = nat -> u64

  // ---------- unbiased offsets ----------

  /** `bound.wrapping_neg() % bound`: the draws below this are rejected. */
  function RejectionThreshold(bound: u64): u64
    requires bound > 0
  {
    (TWO64 - bound) % bound
  }

  predicate Accepts(bound: u64, draw: u64)
    requires bound > 0
  {
    draw >= RejectionThreshold(bound)
  }

  /** Whatever the bound, some later draw is accepted: without this the loop may not end. */
  ghost predicate Live(stream: Stream) {
    forall bound: u64, from: nat :: bound > 1 ==> HasAccepted(stream, bound, from)
  }

  ghost predicate HasAccepted(stream: Stream, bound: u64, from: nat)
    requires bound > 0
  {
    exists at: nat :: at >= from && Accepts(bound, stream(at))
  }

  /** The first accepted draw at or after `from`. */
  ghost function NextAccepted(stream: Stream, bound: u64, from: nat): (at: nat)
    requires bound > 0 && HasAccepted(stream, bound, from)
    ensures at >= from && Accepts(bound, stream(at))
    ensures forall i :: from <= i < at ==> !Accepts(bound, stream(i))
  {
    var witness_: nat :| witness_ >= from && Accepts(bound, stream(witness_));
    FirstAccepted(stream, bound, from, witness_)
  }

  ghost function FirstAccepted(stream: Stream, bound: u64, from: nat, limit: nat): (at: nat)
    requires bound > 0 && from <= limit && Accepts(bound, stream(limit))
    ensures from <= at <= limit && Accepts(bound, stream(at))
    ensures forall i :: from <= i < at ==> !Accepts(bound, stream(i))
    decreases limit - from
  {
    if Accepts(bound, stream(from)) then from else FirstAccepted(stream, bound, from + 1, limit)
  }

  /** A value below `bound` and the stream position after it; bounds 0 and 1 draw nothing. */
  ghost function BoundedDraw(stream: Stream, bound: u64, from: nat): (r: (u64, nat))
    requires Live(stream)
    ensures bound > 0 ==> r.0 < bound
  {
    if bound <= 1 then (0, from)
    else
      assert HasAccepted(stream, bound, from);
      var at := NextAccepted(stream, bound, from);
      (stream(at) % bound, at + 1)
  }

  class Generator {
    const stream: Stream
    var position: nat

    constructor (stream: Stream)
      ensures this.stream == stream && position == 0
    {
      this.stream := stream;
      position := 0;
    }

    method NextU64() returns (draw: u64)
      modifies this`position
      ensures draw == stream(old(position)) && position == old(position) + 1
    {
      draw := stream(position);
      position := position + 1;
    }

    /** Draws until one is accepted, then reduces it. */
    method UniformBelow(bound: u64) returns (value: u64)
      requires Live(stream)
      modifies this`position
      ensures (value, position) == BoundedDraw(stream, bound, old(position))
    {
      if bound <= 1 {
        return 0;
      }
      assert HasAccepted(stream, bound, position);
      ghost var at := NextAccepted(stream, bound, position);
      var threshold := RejectionThreshold(bound);
      while true
        invariant old(position) <= position <= at
        decreases at - position
      {
        var draw := NextU64();
        if draw >= threshold {
          return draw % bound;
        }
      }
    }
  }

  // ---------- the shuffle ----------

  function Swap(s: seq<nat>, i: nat, j: nat): (r: seq<nat>)
    requires i < |s| && j < |s|
    ensures |r| == |s| && multiset(r) == multiset(s)
  {
    s[i := s[j]][j := s[i]]
  }

  function Identity(n: nat): (r: seq<nat>)
    ensures |r| == n && forall i :: 0 <= i < n ==> r[i] == i
  {
    seq(n, i => i)
  }

  /** `offsets` may drive the shuffle of `n` positions from slot `slot` on. */
  predicate ValidOffsets(n: nat, slot: nat, offsets: seq<nat>) {
    slot + |offsets| <= n && forall i :: 0 <= i < |offsets| ==> offsets[i] < n - slot - i
  }

  /** The positions after the swaps for the slots from `slot` on. */
  function Shuffle(positions: seq<nat>, slot: nat, offsets: seq<nat>): (r: seq<nat>)
    requires ValidOffsets(|positions|, slot, offsets)
    ensures |r| == |positions| && multiset(r) == multiset(positions)
    decreases |offsets|
  {
    if offsets == [] then positions
    else Shuffle(Swap(positions, slot, slot + offsets[0]), slot + 1, offsets[1..])
  }

  /** The selection that a sequence of offsets makes. */
  function Select(n: nat, offsets: seq<nat>): seq<nat>
    requires ValidOffsets(n, 0, offsets)
  {
    Shuffle(Identity(n), 0, offsets)[..|offsets|]
  }

  /** The offsets the stream yields for `count` slots. */
  ghost function DrawOffsets(stream: Stream, n: nat, slot: nat, count: nat, from: nat): (r: seq<nat>)
    requires Live(stream) && slot + count <= n < TWO64
    ensures |r| == count && ValidOffsets(n, slot, r)
    decreases count
  {
    if count == 0 then []
    else
      var drawn := BoundedDraw(stream, n - slot, from);
      [drawn.0] + DrawOffsets(stream, n, slot + 1, count - 1, drawn.1)
  }

  /** `partial_fisher_yates`. */
  ghost function PartialFisherYates(stream: Stream, population: nat, count: nat): (r: seq<nat>)
    requires Live(stream) && population < TWO64
    ensures |r| == Min(count, population)
    ensures Distinct(r) && forall p :: p in r ==> p < population
  {
    var offsets := DrawOffsets(stream, population, 0, Min(count, population), 0);
    SelectionIsOrdered(population, offsets);
    Select(population, offsets)
  }

  method RunPartialFisherYates(stream: Stream, population: nat, count: nat) returns (selected: seq<nat>)
    requires Live(stream) && population < TWO64
    ensures selected == PartialFisherYates(stream, population, count)
  {
    hide BoundedDraw, Remaining, Shuffle, Swap, Select, PartialFisherYates, Live, Identity;
    var positions := NewPositions(population);
    var rng := new Generator(stream);
    var chosen := Min(count, population);
    for index := 0 to chosen
      invariant rng.stream == stream
      invariant Target(stream, population, chosen) == Remaining(stream, positions[..], index, chosen, rng.position)
    {
      ghost var before, from := positions[..], rng.position;
      var offset := rng.UniformBelow(population - index);
      RemainingStep(stream, before, index, chosen, from);
      positions[index], positions[index + offset] := positions[index + offset], positions[index];
      SwappedInPlace(before, positions[..], index, index + offset);
    }
    RemainingDone(stream, positions[..], chosen, rng.position);
    TargetIsSelection(stream, population, count);
    selected := positions[..chosen];
    assert positions[..chosen] == positions[..][..chosen];
  }

  method NewPositions(population: nat) returns (positions: array<nat>)
    ensures fresh(positions) && positions[..] == Identity(population)
  {
    positions := new nat[population](i => i);
  }

  /** The finished shuffle, and what is left of it from a slot and a stream position on. */
  ghost function Target(stream: Stream, population: nat, chosen: nat): seq<nat>
    requires Live(stream) && chosen <= population < TWO64
  {
    Remaining(stream, Identity(population), 0, chosen, 0)
  }

  ghost function Remaining(stream: Stream, positions: seq<nat>, slot: nat, chosen: nat, from: nat): seq<nat>
    requires Live(stream) && slot <= chosen <= |positions| < TWO64
  {
    Shuffle(positions, slot, DrawOffsets(stream, |positions|, slot, chosen - slot, from))
  }

  lemma {:induction false} RemainingDone(stream: Stream, positions: seq<nat>, chosen: nat, from: nat)
    requires Live(stream) && chosen <= |positions| < TWO64
    ensures Remaining(stream, positions, chosen, chosen, from) == positions
  {
  }

  lemma {:induction false} TargetIsSelection(stream: Stream, population: nat, count: nat)
    requires Live(stream) && population < TWO64
    ensures |Target(stream, population, Min(count, population))| == population
    ensures PartialFisherYates(stream, population, count) ==
      Target(stream, population, Min(count, population))[..Min(count, population)]
  {
  }

  lemma {:induction false} SwappedInPlace(before: seq<nat>, after: seq<nat>, i: nat, j: nat)
    requires i < |before| == |after| && j < |before|
    requires after == before[i := before[j]][j := before[i]]
    ensures after == Swap(before, i, j)
  {
  }

  lemma {:induction false} RemainingStep(stream: Stream, positions: seq<nat>, slot: nat, chosen: nat, from: nat)
    requires Live(stream) && slot < chosen <= |positions| < TWO64
    ensures var drawn := BoundedDraw(stream, |positions| - slot, from);
      Remaining(stream, positions, slot, chosen, from) ==
      Remaining(stream, Swap(positions, slot, slot + drawn.0), slot + 1, chosen, drawn.1)
  {
    DrawStep(stream, |positions|, slot, chosen - slot, from);
    ShuffleStep(positions, slot, DrawOffsets(stream, |positions|, slot, chosen - slot, from));
    hide Shuffle, DrawOffsets, Swap, BoundedDraw;
  }

  lemma {:induction false} DrawStep(stream: Stream, n: nat, slot: nat, count: nat, from: nat)
    requires Live(stream) && slot + count <= n < TWO64 && count > 0
    ensures var drawn := BoundedDraw(stream, n - slot, from);
      var all := DrawOffsets(stream, n, slot, count, from);
      all[0] == drawn.0 && all[1..] == DrawOffsets(stream, n, slot + 1, count - 1, drawn.1)
  {
    hide BoundedDraw;
    var drawn := BoundedDraw(stream, n - slot, from);
    var rest := DrawOffsets(stream, n, slot + 1, count - 1, drawn.1);
    assert ([drawn.0] + rest)[1..] == rest;
  }

  // ---------- what a selection is ----------

  /** `k` distinct positions below `n`, in order of selection. */
  predicate OrderedSelection(n: nat, selection: seq<nat>) {
    Distinct(selection) && forall i :: 0 <= i < |selection| ==> selection[i] < n
  }

  lemma {:induction false} SelectionIsOrdered(n: nat, offsets: seq<nat>)
    requires ValidOffsets(n, 0, offsets)
    ensures OrderedSelection(n, Select(n, offsets)) && |Select(n, offsets)| == |offsets|
  {
    var all := Shuffle(Identity(n), 0, offsets);
    MembersOfMultiset(Identity(n), all);
    forall i | 0 <= i < |offsets| ensures all[i] < n {
      assert all[i] in Identity(n);
    }
  }

  // ---------- offsets and selections correspond one to one ----------

  lemma {:induction false} TailOffsets(n: nat, slot: nat, offsets: seq<nat>)
    requires ValidOffsets(n, slot, offsets) && offsets != []
    ensures slot + offsets[0] < n && ValidOffsets(n, slot + 1, offsets[1..])
  {
  }

  lemma {:induction false} SwapAt(positions: seq<nat>, i: nat, j: nat, k: nat)
    requires i <= j < |positions| && k <= i
    ensures Swap(positions, i, j)[k] == if k == i then positions[j] else positions[k]
  {
  }

  /** Slots below `slot` are settled: later swaps leave them alone. */
  lemma {:induction false} ShuffleKeepsSlot(positions: seq<nat>, slot: nat, offsets: seq<nat>, k: nat)
    requires ValidOffsets(|positions|, slot, offsets) && k < slot
    ensures Shuffle(positions, slot, offsets)[k] == positions[k]
    decreases |offsets|
  {
    hide ValidOffsets, Swap;
    if offsets != [] {
      TailOffsets(|positions|, slot, offsets);
      SwapAt(positions, slot, slot + offsets[0], k);
      ShuffleKeepsSlot(Swap(positions, slot, slot + offsets[0]), slot + 1, offsets[1..], k);
    }
  }

  lemma {:induction false} ShuffleKeepsPrefix(positions: seq<nat>, slot: nat, offsets: seq<nat>)
    requires ValidOffsets(|positions|, slot, offsets)
    ensures Shuffle(positions, slot, offsets)[..slot] == positions[..slot]
  {
    hide Shuffle;
    forall k | 0 <= k < slot ensures Shuffle(positions, slot, offsets)[k] == positions[k] {
      ShuffleKeepsSlot(positions, slot, offsets, k);
    }
  }

  lemma {:induction false} ShuffleStep(positions: seq<nat>, slot: nat, offsets: seq<nat>)
    requires ValidOffsets(|positions|, slot, offsets) && offsets != []
    ensures var all := Shuffle(positions, slot, offsets);
      && all == Shuffle(Swap(positions, slot, slot + offsets[0]), slot + 1, offsets[1..])
      && all[slot] == positions[slot + offsets[0]]
  {
    hide ValidOffsets, Swap;
    TailOffsets(|positions|, slot, offsets);
    SwapAt(positions, slot, slot + offsets[0], slot);
    ShuffleKeepsSlot(Swap(positions, slot, slot + offsets[0]), slot + 1, offsets[1..], slot);
  }

  /** Where `value` sits, counted from `slot`. */
  function FindFrom(positions: seq<nat>, slot: nat, value: nat): (offset: nat)
    requires slot <= |positions| && value in positions[slot..]
    ensures slot + offset < |positions| && positions[slot + offset] == value
    decreases |positions| - slot
  {
    if positions[slot] == value then 0
    else
      assert positions[slot..] == [positions[slot]] + positions[slot + 1..];
      1 + FindFrom(positions, slot + 1, value)
  }

  /** The remaining selection can be reached: its members are distinct and still unsettled. */
  ghost predicate Reachable(positions: seq<nat>, slot: nat, selection: seq<nat>) {
    && slot + |selection| <= |positions|
    && Distinct(positions) && Distinct(selection)
    && forall v :: v in selection ==> v in positions[slot..]
  }

  /** The offsets that produce a given selection. */
  ghost function OffsetsOf(positions: seq<nat>, slot: nat, selection: seq<nat>): (r: seq<nat>)
    requires Reachable(positions, slot, selection)
    ensures |r| == |selection| && ValidOffsets(|positions|, slot, r)
    decreases |selection|
  {
    if selection == [] then []
    else
      var offset := FindFrom(positions, slot, selection[0]);
      StaysReachable(positions, slot, selection, offset);
      [offset] + OffsetsOf(Swap(positions, slot, slot + offset), slot + 1, selection[1..])
  }

  lemma {:induction false} StaysReachable(positions: seq<nat>, slot: nat, selection: seq<nat>, offset: nat)
    requires Reachable(positions, slot, selection) && selection != []
    requires slot + offset < |positions| && positions[slot + offset] == selection[0]
    ensures Reachable(Swap(positions, slot, slot + offset), slot + 1, selection[1..])
  {
    var swapped := Swap(positions, slot, slot + offset);
    MembersOfMultiset(positions, swapped);
    forall v | v in selection[1..] ensures v in swapped[slot + 1..] {
      assert v in selection && v != selection[0];
      var k :| slot <= k < |positions| && positions[k] == v;
      if k == slot {
        assert swapped[slot + offset] == v;
      } else {
        assert swapped[k] == v;
      }
    }
  }

  /** Every reachable selection is what its offsets produce. */
  lemma {:induction false} OffsetsProduceSelection(positions: seq<nat>, slot: nat, selection: seq<nat>)
    requires Reachable(positions, slot, selection)
    ensures Shuffle(positions, slot, OffsetsOf(positions, slot, selection))[slot..slot + |selection|] == selection
    decreases |selection|
  {
    hide Reachable, Distinct, Swap;
    if selection != [] {
      var offset := FindHead(positions, slot, selection);
      var swapped := Swap(positions, slot, slot + offset);
      OffsetsProduceSelection(swapped, slot + 1, selection[1..]);
      var rest := OffsetsOf(swapped, slot + 1, selection[1..]);
      var offsets := OffsetsOf(positions, slot, selection);
      assert offsets == [offset] + rest && offsets[1..] == rest;
      ShuffleStep(positions, slot, offsets);
      var all := Shuffle(positions, slot, offsets);
      assert all[slot..slot + |selection|] == [all[slot]] + all[slot + 1..slot + |selection|];
    }
  }

  lemma {:induction false} FindHead(positions: seq<nat>, slot: nat, selection: seq<nat>) returns (offset: nat)
    requires Reachable(positions, slot, selection) && selection != []
    ensures slot < |positions| && selection[0] in positions[slot..]
    ensures offset == FindFrom(positions, slot, selection[0])
    ensures slot + offset < |positions| && positions[slot + offset] == selection[0]
    ensures Reachable(Swap(positions, slot, slot + offset), slot + 1, selection[1..])
  {
    offset := FindFrom(positions, slot, selection[0]);
    StaysReachable(positions, slot, selection, offset);
  }

  /** The settled slots of any shuffle form a reachable selection. */
  lemma {:induction false} ShuffleIsReachable(positions: seq<nat>, slot: nat, offsets: seq<nat>)
    requires ValidOffsets(|positions|, slot, offsets) && Distinct(positions)
    ensures Reachable(positions, slot, Shuffle(positions, slot, offsets)[slot..slot + |offsets|])
  {
    var all := Shuffle(positions, slot, offsets);
    MembersOfMultiset(positions, all);
    ShuffleKeepsPrefix(positions, slot, offsets);
    UnsettledMembers(positions, all, slot);
    assert forall v :: v in all[slot..slot + |offsets|] ==> v in all[slot..];
  }

  /** Offsets are recovered from the selection they produce. */
  lemma {:induction false} SelectionDeterminesOffsets(positions: seq<nat>, slot: nat, offsets: seq<nat>)
    requires ValidOffsets(|positions|, slot, offsets) && Distinct(positions)
    ensures var selection := Shuffle(positions, slot, offsets)[slot..slot + |offsets|];
      Reachable(positions, slot, selection) && OffsetsOf(positions, slot, selection) == offsets
    decreases |offsets|
  {
    hide Reachable, Distinct, Swap, Shuffle;
    var all := Shuffle(positions, slot, offsets);
    var selection := all[slot..slot + |offsets|];
    ShuffleIsReachable(positions, slot, offsets);
    if offsets != [] {
      var swapped := Swap(positions, slot, slot + offsets[0]);
      SwapKeepsDistinct(positions, slot, slot + offsets[0]);
      ShuffleStep(positions, slot, offsets);
      SelectionDeterminesOffsets(swapped, slot + 1, offsets[1..]);
      assert selection[1..] == all[slot + 1..slot + 1 + |offsets[1..]|];
      OffsetsHead(positions, slot, selection, offsets[0]);
      assert offsets == [offsets[0]] + offsets[1..];
    }
  }

  /** The first offset is where the first member sits; the rest follow from the swap. */
  lemma {:induction false} OffsetsHead(positions: seq<nat>, slot: nat, selection: seq<nat>, offset: nat)
    requires Reachable(positions, slot, selection) && selection != [] && Distinct(positions)
    requires slot + offset < |positions| && positions[slot + offset] == selection[0]
    ensures Reachable(Swap(positions, slot, slot + offset), slot + 1, selection[1..])
    ensures OffsetsOf(positions, slot, selection) ==
      [offset] + OffsetsOf(Swap(positions, slot, slot + offset), slot + 1, selection[1..])
  {
    hide Reachable, Distinct, Swap, FindFrom, ValidOffsets;
    var found := FindHead(positions, slot, selection);
    DistinctPositions(positions, slot + found, slot + offset);
  }

  lemma {:induction false} SwapKeepsDistinct(positions: seq<nat>, i: nat, j: nat)
    requires i < |positions| && j < |positions| && Distinct(positions)
    ensures Distinct(Swap(positions, i, j))
  {
    MembersOfMultiset(positions, Swap(positions, i, j));
  }

  lemma {:induction false} DistinctPositions(positions: seq<nat>, i: nat, j: nat)
    requires Distinct(positions) && i < |positions| && j < |positions| && positions[i] == positions[j]
    ensures i == j
  {
  }

  lemma {:induction false} UnsettledMembers(a: seq<nat>, b: seq<nat>, slot: nat)
    requires multiset(a) == multiset(b) && slot <= |a| == |b| && a[..slot] == b[..slot]
    ensures forall v :: v in b[slot..] ==> v in a[slot..]
  {
    assert a == a[..slot] + a[slot..] && b == b[..slot] + b[slot..];
    assert multiset(a) == multiset(a[..slot]) + multiset(a[slot..]);
    assert multiset(b) == multiset(a[..slot]) + multiset(b[slot..]);
    assert multiset(a[slot..]) == multiset(a) - multiset(a[..slot]);
    assert multiset(b[slot..]) == multiset(b) - multiset(a[..slot]);
    MembersOfMultiset(a[slot..], b[slot..]);
  }

  lemma {:induction false} IdentityIsDistinct(n: nat)
    ensures Distinct(Identity(n))
  {
  }

  lemma {:induction false} SelectionIsReachable(n: nat, selection: seq<nat>)
    requires OrderedSelection(n, selection) && |selection| <= n
    ensures Reachable(Identity(n), 0, selection)
  {
    forall v | v in selection ensures v in Identity(n)[0..] {
      assert Identity(n)[v] == v;
    }
  }

  /** The offsets that select `selection` out of `n`. */
  ghost function OffsetsFor(n: nat, selection: seq<nat>): (r: seq<nat>)
    requires OrderedSelection(n, selection) && |selection| <= n
    ensures |r| == |selection| && ValidOffsets(n, 0, r)
  {
    SelectionIsReachable(n, selection);
    OffsetsOf(Identity(n), 0, selection)
  }

  /** Valid offset sequences and ordered selections correspond one to one. */
  lemma {:induction false} SelectionIsBijective(n: nat, offsets: seq<nat>, selection: seq<nat>)
    requires ValidOffsets(n, 0, offsets)
    requires OrderedSelection(n, selection) && |selection| <= n
    ensures Select(n, offsets) == selection <==> offsets == OffsetsFor(n, selection)
  {
    hide Reachable, Distinct, OrderedSelection, Shuffle, OffsetsOf;
    var p := Identity(n);
    IdentityIsDistinct(n);
    SelectionIsReachable(n, selection);
    OffsetsProduceSelection(p, 0, selection);
    SelectionDeterminesOffsets(p, 0, offsets);
    assert Shuffle(p, 0, offsets)[0..0 + |offsets|] == Select(n, offsets);
    var needed := OffsetsFor(n, selection);
    assert Shuffle(p, 0, needed)[0..0 + |selection|] == Select(n, needed);
  }
}
