/** The bottom-up segment tree that answers "which successor boundary in this range needs
    the fewest further segments and, of those, lies furthest right?". */
module RouteChoices {
  import opened Wrappers

  datatype RouteChoice = RouteChoice(remainingSegments: nat, end: nat) {
    predicate BetterThan(other: RouteChoice) {
      || remainingSegments < other.remainingSegments
      || (remainingSegments == other.remainingSegments && end > other.end)
    }
  }

  function BestRouteChoice(left: Option<RouteChoice>, right: Option<RouteChoice>): Option<RouteChoice> {
    match (left, right)
    case (Some(l), Some(r)) => Some(if l.BetterThan(r) then l else r)
    case (Some(_), None) => left
    case (None, _) => right
  }

  function BestOf(choices: seq<Option<RouteChoice>>): Option<RouteChoice> {
    if choices == [] then None else BestRouteChoice(choices[0], BestOf(choices[1..]))
  }

  lemma {:induction false} BestOfConcat(a: seq<Option<RouteChoice>>, b: seq<Option<RouteChoice>>)
    ensures BestOf(a + b) == BestRouteChoice(BestOf(a), BestOf(b))
  {
    if a == [] {
      assert a + b == b;
    } else {
      assert (a + b)[1..] == a[1..] + b;
      BestOfConcat(a[1..], b);
    }
  }

  /** The stored successors, by boundary. `choice` is the answer for boundaries in [start, end):
      nothing when none is stored there, otherwise the one that beats every other. */
  ghost predicate IsBestIn(stored: map<nat, nat>, start: nat, end: nat, choice: Option<RouteChoice>) {
    match choice
    case None => forall i :: start <= i < end ==> i !in stored
    case Some(best) =>
      && start <= best.end < end
      && best.end in stored && stored[best.end] == best.remainingSegments
      && forall i :: start <= i < end && i in stored && i != best.end ==>
           best.BetterThan(RouteChoice(stored[i], i))
  }

  /** The smallest power of two, from `power` up, that is at least `n`. */
  function NextPowerOfTwo(n: nat, power: nat): (r: nat)
    requires power == 1 || 0 < power < 2 * n
    ensures r >= n && r >= power && (r == 1 || r < 2 * n)
    decreases n - power
  {
    if power >= n then power else NextPowerOfTwo(n, 2 * power)
  }

  class RouteTree {
    const leafCount: nat
    const nodes: array<Option<RouteChoice>>

    ghost predicate Shaped()
      reads this, nodes
    {
      && leafCount > 0
      && nodes.Length == 2 * leafCount
      && forall i: nat :: i < leafCount && Leaf(i).Some? ==> Leaf(i).value.end == i
    }

    ghost function Leaf(i: nat): Option<RouteChoice>
      requires nodes.Length == 2 * leafCount && i < leafCount
      reads this, nodes
    {
      nodes[leafCount + i]
    }

    ghost predicate Summarizes(node: nat)
      requires nodes.Length == 2 * leafCount && node < leafCount
      reads this, nodes
    {
      nodes[node] == BestRouteChoice(nodes[2 * node], nodes[2 * node + 1])
    }

    ghost predicate Valid()
      reads this, nodes
    {
      Shaped() && forall node :: 1 <= node < leafCount ==> Summarizes(node)
    }

    /** Every stored boundary with its number of remaining segments. */
    ghost function Stored(): map<nat, nat>
      requires Shaped()
      reads this, nodes
    {
      map i: nat | i < leafCount && Leaf(i).Some? :: Leaf(i).value.remainingSegments
    }

    constructor (valueCount: nat)
      ensures Valid() && fresh(nodes) && leafCount >= valueCount
      ensures Stored() == map[]
    {
      leafCount := NextPowerOfTwo(valueCount, 1);
      nodes := new Option<RouteChoice>[2 * NextPowerOfTwo(valueCount, 1)](_ => None);
    }

    ghost predicate Above(ancestor: nat, node: nat)
      decreases node
    {
      node > 1 && (ancestor == node / 2 || Above(ancestor, node / 2))
    }

    /** Writes a leaf, then recomputes every node on the way to the root. */
    method Insert(index: nat, remainingSegments: nat)
      requires Valid() && index < leafCount
      modifies nodes
      ensures Valid()
      ensures Stored() == old(Stored())[index := remainingSegments]
    {
      var node := leafCount + index;
      nodes[node] := Some(RouteChoice(remainingSegments, index));
      forall i: nat | i < leafCount
        ensures Leaf(i) == if i == index then Some(RouteChoice(remainingSegments, index)) else old(Leaf(i))
      {
      }
      forall i | 1 <= i < leafCount && !Above(i, node) ensures Summarizes(i) {
        assert old(Summarizes(i));
        assert 2 * i != node && 2 * i + 1 != node;
      }
      label stored:
      while node > 1
        invariant 1 <= node < nodes.Length
        invariant forall i: nat :: i < leafCount ==> Leaf(i) == old@stored(Leaf(i))
        invariant forall i :: 1 <= i < leafCount && !Above(i, node) ==> Summarizes(i)
      {
        label before:
        var parent := node / 2;
        nodes[parent] := BestRouteChoice(nodes[parent * 2], nodes[parent * 2 + 1]);
        forall i | 1 <= i < leafCount && !Above(i, parent) ensures Summarizes(i) {
          if i != parent {
            assert old@before(Summarizes(i));
            assert 2 * i != parent && 2 * i + 1 != parent;
          }
        }
        node := parent;
      }
    }

    lemma {:induction false} LevelUp(a: nat, b: nat)
      requires Valid() && 1 <= a <= b <= leafCount
      ensures BestOf(nodes[2 * a..2 * b]) == BestOf(nodes[a..b])
      decreases b - a
    {
      if a < b {
        LevelUp(a + 1, b);
        assert Summarizes(a);
        assert nodes[2 * a..2 * b] == [nodes[2 * a], nodes[2 * a + 1]] + nodes[2 * (a + 1)..2 * b];
        assert [nodes[2 * a], nodes[2 * a + 1]][1..] == [nodes[2 * a + 1]];
        BestOfConcat([nodes[2 * a], nodes[2 * a + 1]], nodes[2 * (a + 1)..2 * b]);
        assert nodes[a..b][1..] == nodes[a + 1..b];
      }
    }

    lemma {:induction false} LeavesAnswer(start: nat, end: nat)
      requires Shaped() && start <= end <= leafCount
      ensures IsBestIn(Stored(), start, end, BestOf(nodes[leafCount + start..leafCount + end]))
      decreases end - start
    {
      var leaves := nodes[leafCount + start..leafCount + end];
      if start < end {
        LeavesAnswer(start + 1, end);
        assert leaves[0] == Leaf(start);
        assert leaves[0] == nodes[leafCount + start];
        assert leaves[1..] == nodes[leafCount + start + 1..leafCount + end];
      }
    }

    /** Two cursors walk up the tree, each picking up the node that sticks out on its side. */
    method BestIn(from: nat, to: nat) returns (best: Option<RouteChoice>)
      requires Valid() && to <= leafCount
      ensures IsBestIn(Stored(), from, to, best)
    {
      var start, end := from + leafCount, to + leafCount;
      hide Pending, Summarizes, BestRouteChoice;
      best := None;
      ghost var target := Pending(None, start, end);
      PendingDone(None, start, end);
      if from <= to {
        LeavesAnswer(from, to);
      }
      while start < end
        invariant 1 <= start && 1 <= end <= nodes.Length
        invariant target == Pending(best, start, end)
        decreases end
      {
        if start % 2 == 1 {
          PendingFirst(best, start, end);
          best := BestRouteChoice(best, nodes[start]);
          start := start + 1;
        }
        if end % 2 == 1 {
          end := end - 1;
          PendingLast(best, start, end);
          best := BestRouteChoice(best, nodes[end]);
        }
        PendingHalved(best, start, end);
        start := start / 2;
        end := end / 2;
      }
      PendingDone(best, start, end);
    }

    /** The answer, given what has been picked up and the nodes between the cursors. */
    ghost function Pending(best: Option<RouteChoice>, start: nat, end: nat): Option<RouteChoice>
      requires end <= nodes.Length
      reads this, nodes
    {
      if start < end then BestRouteChoice(best, BestOf(nodes[start..end])) else best
    }

    lemma {:induction false} PendingDone(best: Option<RouteChoice>, start: nat, end: nat)
      requires end <= nodes.Length
      ensures start >= end ==> Pending(best, start, end) == best
      ensures start < end ==> Pending(None, start, end) == BestOf(nodes[start..end])
    {
    }

    /** One level up, the same choices are pending. */
    lemma {:induction false} PendingHalved(best: Option<RouteChoice>, start: nat, end: nat)
      requires Valid() && 1 <= start && end <= nodes.Length && start % 2 == 0 && end % 2 == 0
      ensures Pending(best, start / 2, end / 2) == Pending(best, start, end)
    {
      if start < end {
        LevelUp(start / 2, end / 2);
      }
    }

    lemma {:induction false} PendingFirst(best: Option<RouteChoice>, start: nat, end: nat)
      requires start < end <= nodes.Length
      ensures Pending(best, start, end) == Pending(BestRouteChoice(best, nodes[start]), start + 1, end)
    {
      assert nodes[start..end][1..] == nodes[start + 1..end];
    }

    lemma {:induction false} PendingLast(best: Option<RouteChoice>, start: nat, end: nat)
      requires start <= end < nodes.Length
      ensures Pending(best, start, end + 1) == Pending(BestRouteChoice(best, nodes[end]), start, end)
    {
      assert nodes[start..end + 1] == nodes[start..end] + [nodes[end]];
      BestOfConcat(nodes[start..end], [nodes[end]]);
      assert BestOf([nodes[end]]) == nodes[end];
    }
  }
}
