/** Splitting an event stream into the fewest target-sized segments: a backwards dynamic
    program over the boundaries, sped up by prefix sums and the route tree. */
module EpisodePlan {
  import opened Wrappers
  import opened Numbers
  import opened RouteChoices

  /** Prefix sums over the events: body bytes, and substantive events. */
  datatype EventSums = EventSums(bytes: seq<u64>, substantive: seq<nat>) {

    ghost predicate Valid() {
      && |bytes| == |substantive| > 0
      && (forall i, j :: 0 <= i <= j < |bytes| ==> bytes[i] <= bytes[j])
      && (forall i, j :: 0 <= i <= j < |bytes| ==> substantive[i] <= substantive[j])
    }

    function EventCount(): nat
      requires |bytes| > 0
    {
      |bytes| - 1
    }
  }

  /** What a plan has to respect: the sums, whether the request itself is substantive, the
      bytes a segment costs before any event, and the size target. */
  datatype ChainProblem = ChainProblem(
    sums: EventSums, sharedSubstantive: bool, firstBase: u64, continuedBase: u64, target: u64) {

    function Base(start: nat): u64 {
      if start == 0 then firstBase else continuedBase
    }

    /** Events `start..end` may form one atom. */
    ghost predicate Segment(start: nat, end: nat)
      requires sums.Valid()
    {
      && start < end <= sums.EventCount()
      && Base(start) + sums.bytes[end] - sums.bytes[start] <= target
      && (sharedSubstantive || sums.substantive[end] > sums.substantive[start])
    }

    /** `ends` are the boundaries of consecutive segments that cover everything from `start`. */
    ghost predicate Route(start: nat, ends: seq<nat>)
      requires sums.Valid()
      decreases ends
    {
      if ends == [] then start == sums.EventCount()
      else Segment(start, ends[0]) && Route(ends[0], ends[1..])
    }

    /** Some sequence of segments covers the whole stream. */
    ghost predicate Feasible()
      requires sums.Valid()
    {
      exists ends :: Route(0, ends)
    }

    /** No covering route is shorter, and among the shortest this one takes the longest
        possible segment at the first place where they differ. */
    ghost predicate BestRoute(start: nat, ends: seq<nat>)
      requires sums.Valid()
    {
      && Route(start, ends)
      && forall other :: Route(start, other) ==>
           |ends| <= |other| && (|ends| == |other| ==> TakesAtLeast(ends, other))
    }
  }

  /** `a` is `b`, or goes further at the first difference. */
  ghost predicate TakesAtLeast(a: seq<nat>, b: seq<nat>)
    requires |a| == |b|
  {
    a == [] || a[0] > b[0] || (a[0] == b[0] && TakesAtLeast(a[1..], b[1..]))
  }

  /** The segments between consecutive boundaries. */
  function RangesOf(start: nat, ends: seq<nat>): (r: seq<(nat, nat)>)
    ensures |r| == |ends|
    decreases ends
  {
    if ends == [] then [] else [(start, ends[0])] + RangesOf(ends[0], ends[1..])
  }

  lemma {:induction false} TakesAtLeastAntisymmetric(a: seq<nat>, b: seq<nat>)
    requires |a| == |b| && TakesAtLeast(a, b) && TakesAtLeast(b, a)
    ensures a == b
  {
    if a != [] {
      TakesAtLeastAntisymmetric(a[1..], b[1..]);
      assert a == [a[0]] + a[1..] && b == [b[0]] + b[1..];
    }
  }

  /** The best route is unique, so the plan is determined by its specification. */
  lemma {:induction false} BestRouteIsUnique(p: ChainProblem, a: seq<nat>, b: seq<nat>)
    requires p.sums.Valid() && p.BestRoute(0, a) && p.BestRoute(0, b)
    ensures a == b
  {
    TakesAtLeastAntisymmetric(a, b);
  }

  /** The length of the longest prefix that stays within the limit (`partition_point`). */
  function PartitionPoint(values: seq<nat>, limit: nat): (r: nat)
    ensures r <= |values|
    ensures forall i :: 0 <= i < r ==> values[i] <= limit
    ensures r < |values| ==> values[r] > limit
  {
    if values == [] || values[0] > limit then 0
    else
      var rest := PartitionPoint(values[1..], limit);
      assert forall i :: 1 <= i < 1 + rest ==> values[i] == values[1..][i - 1];
      1 + rest
  }

  // ---------- the table ----------

  /** Row `s` of the table says what is best from boundary `s` on. */
  ghost predicate Solved(p: ChainProblem, remaining: seq<Option<nat>>, next: seq<Option<nat>>, s: nat)
    requires p.sums.Valid() && |remaining| == |next| == p.sums.EventCount() + 1 && s < |remaining|
  {
    match remaining[s]
    case None => forall ends :: !p.Route(s, ends)
    case Some(k) =>
      && (forall ends :: p.Route(s, ends) ==> k <= |ends|)
      && if s == p.sums.EventCount() then k == 0 else
         && k > 0
         && next[s].Some? && p.Segment(s, next[s].value)
         && remaining[next[s].value] == Some(k - 1)
         && forall e: nat :: p.Segment(s, e) && remaining[e] == Some(k - 1) ==> e <= next[s].value
  }

  /** Following the table from `s`. */
  ghost function TableRoute(next: seq<Option<nat>>, s: nat): seq<nat>
    decreases |next| - s
  {
    if s < |next| && next[s].Some? && s < next[s].value < |next|
    then [next[s].value] + TableRoute(next, next[s].value)
    else []
  }

  lemma {:induction false} TableRouteIsBest(
      p: ChainProblem, remaining: seq<Option<nat>>, next: seq<Option<nat>>, s: nat)
    requires p.sums.Valid() && |remaining| == |next| == p.sums.EventCount() + 1 && s < |remaining|
    requires forall t :: s <= t < |remaining| ==> Solved(p, remaining, next, t)
    requires remaining[s].Some? && next[p.sums.EventCount()] == None
    ensures |TableRoute(next, s)| == remaining[s].value && p.BestRoute(s, TableRoute(next, s))
    decreases |next| - s
  {
    assert Solved(p, remaining, next, s);
    if s < p.sums.EventCount() {
      var k, e := remaining[s].value, next[s].value;
      TableRouteIsBest(p, remaining, next, e);
      var rest := TableRoute(next, e);
      assert TableRoute(next, s) == [e] + rest && ([e] + rest)[1..] == rest;
      forall other | p.Route(s, other) && |other| == k ensures TakesAtLeast([e] + rest, other) {
        HeadIsSolved(p, remaining, next, s, other);
        TableRouteIsBest(p, remaining, next, other[0]);
        ThroughHead(p, s, other, TableRoute(next, other[0]));
      }
    }
  }

  /** Any route from a live row continues from a live row with one segment less to go. */
  lemma {:induction false} HeadIsSolved(
      p: ChainProblem, remaining: seq<Option<nat>>, next: seq<Option<nat>>, s: nat, other: seq<nat>)
    requires p.sums.Valid() && |remaining| == |next| == p.sums.EventCount() + 1 && s < p.sums.EventCount()
    requires forall t :: s <= t < |remaining| ==> Solved(p, remaining, next, t)
    requires p.Route(s, other)
    ensures other != [] && s < other[0] < |remaining| && p.Segment(s, other[0]) && p.Route(other[0], other[1..])
    ensures remaining[other[0]].Some? && remaining[other[0]].value <= |other| - 1
  {
    assert Solved(p, remaining, next, other[0]);
  }

  lemma {:induction false} ThroughHead(p: ChainProblem, s: nat, other: seq<nat>, rest: seq<nat>)
    requires p.sums.Valid() && s < p.sums.EventCount() && other != []
    requires p.Segment(s, other[0]) && p.Route(other[0], rest)
    ensures p.Route(s, [other[0]] + rest)
  {
    assert ([other[0]] + rest)[1..] == rest;
  }

  lemma {:induction false} SolvedFrame(p: ChainProblem, remaining: seq<Option<nat>>, next: seq<Option<nat>>,
                    remaining': seq<Option<nat>>, next': seq<Option<nat>>, s: nat)
    requires p.sums.Valid() && |remaining| == |next| == p.sums.EventCount() + 1 && s < |remaining|
    requires |remaining'| == |next'| == |remaining|
    requires forall t :: s <= t < |remaining| ==> remaining'[t] == remaining[t] && next'[t] == next[t]
    requires Solved(p, remaining, next, s)
    ensures Solved(p, remaining', next', s)
  {
  }

  /** The boundaries the source searches for a successor of `start`: the last one within
      the byte limit, and the first one that makes the segment substantive. */
  function SuccessorWindow(p: ChainProblem, start: nat): Option<(nat, nat)>
    requires |p.sums.bytes| > 0 && start < |p.sums.bytes| && start < |p.sums.substantive|
  {
    if p.target < p.Base(start) then None
    else
      var limit := SaturatingAdd(p.sums.bytes[start], p.target - p.Base(start));
      var upper := PartitionPoint(p.sums.bytes, limit);
      var maximumEnd := Min(SaturatingSub(upper, 1), p.sums.EventCount());
      if maximumEnd <= start then None
      else if p.sharedSubstantive then Some((start + 1, maximumEnd))
      else
        var firstSubstantiveEnd := PartitionPoint(p.sums.substantive, p.sums.substantive[start]);
        if firstSubstantiveEnd > maximumEnd then None else Some((firstSubstantiveEnd, maximumEnd))
  }

  lemma {:induction false} PartitionPointSplits(values: seq<nat>, limit: nat)
    requires forall i, j :: 0 <= i <= j < |values| ==> values[i] <= values[j]
    ensures forall i :: 0 <= i < |values| ==> (values[i] <= limit <==> i < PartitionPoint(values, limit))
  {
  }

  /** The searched window holds exactly the ends of the possible segments. */
  lemma {:induction false} WindowIsExact(p: ChainProblem, start: nat, end: nat)
    requires p.sums.Valid() && start < p.sums.EventCount()
    ensures p.Segment(start, end) <==>
      SuccessorWindow(p, start).Some? &&
      SuccessorWindow(p, start).value.0 <= end <= SuccessorWindow(p, start).value.1
    ensures SuccessorWindow(p, start).Some? ==>
      start < SuccessorWindow(p, start).value.0 && SuccessorWindow(p, start).value.1 <= p.sums.EventCount()
  {
    if p.target >= p.Base(start) {
      PartitionPointSplits(p.sums.bytes, SaturatingAdd(p.sums.bytes[start], p.target - p.Base(start)));
      PartitionPointSplits(p.sums.substantive, p.sums.substantive[start]);
    }
  }

  /** A row with no stored successor in its window has no route. */
  lemma {:induction false} DeadRow(p: ChainProblem, remaining: seq<Option<nat>>, next: seq<Option<nat>>, s: nat)
    requires p.sums.Valid() && |remaining| == |next| == p.sums.EventCount() + 1 && s < p.sums.EventCount()
    requires forall t :: s < t < |remaining| ==> Solved(p, remaining, next, t)
    requires remaining[s] == None
    requires forall e: nat :: p.Segment(s, e) ==> remaining[e] == None
    ensures Solved(p, remaining, next, s)
  {
    forall ends ensures !p.Route(s, ends) {
      if ends != [] && p.Segment(s, ends[0]) {
        assert Solved(p, remaining, next, ends[0]);
      }
    }
  }

  /** A row that points at the best stored successor of its window is solved. */
  lemma {:induction false} LiveRow(p: ChainProblem, remaining: seq<Option<nat>>, next: seq<Option<nat>>, s: nat,
                stored: map<nat, nat>, best: RouteChoice)
    requires p.sums.Valid() && |remaining| == |next| == p.sums.EventCount() + 1 && s < p.sums.EventCount()
    requires forall t :: s < t < |remaining| ==> Solved(p, remaining, next, t)
    requires forall t :: s < t < |remaining| ==>
      remaining[t] == if t in stored then Some(stored[t]) else None
    requires SuccessorWindow(p, s).Some?
    requires IsBestIn(stored, SuccessorWindow(p, s).value.0, SuccessorWindow(p, s).value.1 + 1, Some(best))
    requires remaining[s] == Some(best.remainingSegments + 1) && next[s] == Some(best.end)
    ensures Solved(p, remaining, next, s)
  {
    WindowIsExact(p, s, best.end);
    forall ends | p.Route(s, ends) ensures best.remainingSegments + 1 <= |ends| {
      WindowIsExact(p, s, ends[0]);
      assert p.Route(ends[0], ends[1..]);
      assert Solved(p, remaining, next, ends[0]);
    }
    forall e: nat | p.Segment(s, e) && remaining[e] == Some(best.remainingSegments) ensures e <= best.end {
      WindowIsExact(p, s, e);
    }
  }

  /** The table is solved from boundary `start` on, and the tree stores exactly its live rows. */
  ghost predicate TableFrom(p: ChainProblem, remaining: seq<Option<nat>>, next: seq<Option<nat>>,
                            stored: map<nat, nat>, start: nat)
    requires p.sums.Valid()
  {
    var eventCount := p.sums.EventCount();
    && |remaining| == |next| == eventCount + 1
    && start <= eventCount
    && next[eventCount] == None
    && (forall t :: 0 <= t < start ==> remaining[t] == None && next[t] == None)
    && (forall t :: start <= t <= eventCount ==> Solved(p, remaining, next, t))
    && (forall t :: start <= t <= eventCount ==> remaining[t] == if t in stored then Some(stored[t]) else None)
    && (forall t :: t in stored ==> start <= t <= eventCount)
  }

  /** One more row, filled from the answer of the tree. */
  lemma {:induction false} NextRow(p: ChainProblem, remaining: seq<Option<nat>>, next: seq<Option<nat>>,
                stored: map<nat, nat>, s: nat, successor: Option<RouteChoice>)
    requires p.sums.Valid() && TableFrom(p, remaining, next, stored, s + 1)
    requires SuccessorWindow(p, s).None? ==> successor == None
    requires SuccessorWindow(p, s).Some? ==>
      IsBestIn(stored, SuccessorWindow(p, s).value.0, SuccessorWindow(p, s).value.1 + 1, successor)
    ensures match successor
      case None => TableFrom(p, remaining, next, stored, s)
      case Some(best) =>
        TableFrom(p, remaining[s := Some(best.remainingSegments + 1)], next[s := Some(best.end)],
                  stored[s := best.remainingSegments + 1], s)
  {
    match successor
    case None =>
      hide Solved;
      forall e: nat | p.Segment(s, e) ensures remaining[e] == None {
        WindowIsExact(p, s, e);
      }
      DeadRow(p, remaining, next, s);
    case Some(best) =>
      hide Solved;
      var remaining', next' := remaining[s := Some(best.remainingSegments + 1)], next[s := Some(best.end)];
      forall t | s < t < |remaining| ensures Solved(p, remaining', next', t) {
        SolvedFrame(p, remaining, next, remaining', next', t);
      }
      LiveRow(p, remaining', next', s, stored, best);
  }

  lemma {:induction false} BestStoredExists(stored: map<nat, nat>, start: nat, end: nat)
    returns (choice: Option<RouteChoice>)
    ensures IsBestIn(stored, start, end, choice)
    decreases end - start
  {
    if start >= end {
      choice := None;
    } else {
      choice := BestStoredExists(stored, start + 1, end);
      if start in stored {
        choice := BestRouteChoice(Some(RouteChoice(stored[start], start)), choice);
      }
    }
  }

  lemma {:induction false} SolvedTableExists(p: ChainProblem, s: nat)
    returns (remaining: seq<Option<nat>>, next: seq<Option<nat>>, stored: map<nat, nat>)
    requires p.sums.Valid() && s <= p.sums.EventCount()
    ensures TableFrom(p, remaining, next, stored, s)
    decreases p.sums.EventCount() - s
  {
    var eventCount := p.sums.EventCount();
    if s == eventCount {
      remaining := seq(eventCount + 1, _ => None)[eventCount := Some(0)];
      next := seq(eventCount + 1, _ => None);
      stored := map[eventCount := 0];
      LastRow(p, remaining, next);
    } else {
      remaining, next, stored := SolvedTableExists(p, s + 1);
      WindowIsExact(p, s, s);
      var window, successor := SuccessorWindow(p, s), None;
      if window.Some? {
        successor := BestStoredExists(stored, window.value.0, window.value.1 + 1);
      }
      NextRow(p, remaining, next, stored, s, successor);
      if successor.Some? {
        remaining := remaining[s := Some(successor.value.remainingSegments + 1)];
        next := next[s := Some(successor.value.end)];
        stored := stored[s := successor.value.remainingSegments + 1];
      }
    }
  }

  /** A feasible stream has a best route. */
  lemma {:induction false} BestRouteExists(p: ChainProblem)
    requires p.sums.Valid() && p.Feasible()
    ensures exists ends :: p.BestRoute(0, ends)
  {
    var remaining, next, _ := SolvedTableExists(p, 0);
    var ends :| p.Route(0, ends);
    assert Solved(p, remaining, next, 0);
    TableRouteIsBest(p, remaining, next, 0);
  }

  // ---------- the planner ----------

  /** Fills the table from the last boundary down, then walks it from the first. */
  method PlanEpisodeRanges(p: ChainProblem) returns (r: Result<seq<(nat, nat)>>)
    requires p.sums.Valid()
    ensures r.Ok? <==> p.Feasible()
    ensures r.Err? ==> r.error == EpisodeRequiresSplit(SaturatingAdd(p.target, 1))
    ensures r.Ok? ==> exists ends :: p.BestRoute(0, ends) && r.value == RangesOf(0, ends)
  {
    var remaining, next := FillTable(p);
    assert Solved(p, remaining, next, 0);
    if remaining[0] == None {
      return Err(EpisodeRequiresSplit(SaturatingAdd(p.target, 1)));
    }
    TableRouteIsBest(p, remaining, next, 0);
    var ranges := WalkTable(p, remaining, next);
    assert p.Route(0, TableRoute(next, 0));
    r := Ok(ranges);
  }

  method FillTable(p: ChainProblem) returns (remaining: seq<Option<nat>>, next: seq<Option<nat>>)
    requires p.sums.Valid()
    ensures |remaining| == |next| == p.sums.EventCount() + 1 && next[p.sums.EventCount()] == None
    ensures forall t :: 0 <= t < |remaining| ==> Solved(p, remaining, next, t)
  {
    var eventCount := p.sums.EventCount();
    var routes := new RouteTree(eventCount + 1);
    remaining := seq(eventCount + 1, _ => None)[eventCount := Some(0)];
    next := seq(eventCount + 1, _ => None);
    routes.Insert(eventCount, 0);
    LastRow(p, remaining, next);
    var start := eventCount;
    while start > 0
      invariant start <= eventCount
      invariant routes.Valid() && routes.leafCount > eventCount && fresh(routes.nodes)
      invariant TableFrom(p, remaining, next, routes.Stored(), start)
    {
      start := start - 1;
      remaining, next := FillRow(p, start, routes, remaining, next);
    }
  }

  lemma {:induction false} LastRow(p: ChainProblem, remaining: seq<Option<nat>>, next: seq<Option<nat>>)
    requires p.sums.Valid() && |remaining| == |next| == p.sums.EventCount() + 1
    requires forall t :: 0 <= t < p.sums.EventCount() ==> remaining[t] == None
    requires remaining[p.sums.EventCount()] == Some(0)
    requires forall t :: 0 <= t < |next| ==> next[t] == None
    ensures TableFrom(p, remaining, next, map[p.sums.EventCount() := 0], p.sums.EventCount())
  {
  }

  /** One step of the backwards pass: query the successors, then record and index the row. */
  method FillRow(p: ChainProblem, start: nat, routes: RouteTree,
                 remaining0: seq<Option<nat>>, next0: seq<Option<nat>>)
    returns (remaining: seq<Option<nat>>, next: seq<Option<nat>>)
    requires p.sums.Valid() && routes.Valid() && routes.leafCount > p.sums.EventCount()
    requires TableFrom(p, remaining0, next0, routes.Stored(), start + 1)
    modifies routes.nodes
    ensures routes.Valid() && TableFrom(p, remaining, next, routes.Stored(), start)
  {
    remaining, next := remaining0, next0;
    var window := SuccessorWindow(p, start);
    WindowIsExact(p, start, start);
    var successor := None;
    if window.Some? {
      successor := routes.BestIn(window.value.0, window.value.1 + 1);
    }
    NextRow(p, remaining, next, routes.Stored(), start, successor);
    if successor.Some? {
      remaining := remaining[start := Some(successor.value.remainingSegments + 1)];
      next := next[start := Some(successor.value.end)];
      routes.Insert(start, successor.value.remainingSegments + 1);
    }
  }

  /** Reads the segments off the finished table. Every row it meets is live and points forward. */
  method WalkTable(p: ChainProblem, ghost remaining: seq<Option<nat>>, next: seq<Option<nat>>)
    returns (ranges: seq<(nat, nat)>)
    requires p.sums.Valid() && |remaining| == |next| == p.sums.EventCount() + 1
    requires forall t :: 0 <= t < |remaining| ==> Solved(p, remaining, next, t)
    requires remaining[0].Some? && next[p.sums.EventCount()] == None
    ensures ranges == RangesOf(0, TableRoute(next, 0))
  {
    ranges := [];
    var start := 0;
    while start < p.sums.EventCount()
      invariant start <= p.sums.EventCount() && remaining[start].Some?
      invariant RangesOf(0, TableRoute(next, 0)) == ranges + RangesOf(start, TableRoute(next, start))
      decreases p.sums.EventCount() - start
    {
      assert Solved(p, remaining, next, start);
      var end := next[start].value;
      ghost var rest := TableRoute(next, end);
      assert ([end] + rest)[1..] == rest;
      assert ranges + ([(start, end)] + RangesOf(end, rest)) == ranges + [(start, end)] + RangesOf(end, rest);
      ranges := ranges + [(start, end)];
      start := end;
    }
  }
}
