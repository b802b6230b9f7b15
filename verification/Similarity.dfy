/** How alike two bodies are: weighted set overlap in fixed point, and the weakest pair of a group. */
module Similarity {
  import opened Wrappers
  import opened Numbers
  import opened Sequences
  import opened Fixed
  import opened Model

  function Members(s: TextSet): set<Text> {
    set t | t in s
  }

  /** Shared keys over all keys; zero when there are none. */
  function Jaccard(left: TextSet, right: TextSet): (r: Ppm)
    ensures Members(left) == Members(right) != {} ==> r == SCALE
    ensures Members(left) !! Members(right) ==> r == 0
  {
    var union, shared := Members(left) + Members(right), Members(left) * Members(right);
    if |union| == 0 then 0 else
      assert Members(left) == Members(right) ==> union == shared;
      Ratio(CountAsU64(|shared|), CountAsU64(|union|))
  }

  /** `u64::try_from(count).unwrap_or(u64::MAX)`. */
  function CountAsU64(count: nat): u64 {
    if count < TWO64 then count else U64_MAX
  }

  predicate KnownOutcome(body: MemoryAtomBody) {
    body.outcomeClass.Some? && body.outcomeClass.value != []
  }

  /** `semantic_similarity`. */
  function SemanticSimilarity(left: MemoryAtomBody, right: MemoryAtomBody, policy: Policy): Ppm
  {
    var outcome: Ppm := if KnownOutcome(left) && left.outcomeClass == right.outcomeClass then SCALE else 0;
    SumCapped([
      Multiply(policy.similarityTopicWeight, Jaccard(left.topicKeys, right.topicKeys)),
      Multiply(policy.similarityEntityWeight, Jaccard(left.entityIds, right.entityIds)),
      Multiply(policy.similarityOutcomeWeight, outcome)])
  }

  /** The overlap is the floor of shared keys over all keys, in millionths, and zero without keys. */
  lemma {:induction false} JaccardIsFloor(left: TextSet, right: TextSet)
    requires |Members(left) + Members(right)| < TWO64
    ensures var all, shared := |Members(left) + Members(right)|, |Members(left) * Members(right)|;
      var r := Jaccard(left, right);
      if all == 0 then r == 0 else r * all <= shared * SCALE < (r + 1) * all
  {
    var union, shared := Members(left) + Members(right), Members(left) * Members(right);
    SubsetSize(shared, union);
  }

  lemma {:induction false} SubsetSize<T>(a: set<T>, b: set<T>)
    requires a <= b
    ensures |a| <= |b|
  {
    if a != {} {
      var x :| x in a;
      SubsetSize(a - {x}, b - {x});
    }
  }

  lemma {:induction false} JaccardSymmetric(left: TextSet, right: TextSet)
    ensures Jaccard(left, right) == Jaccard(right, left)
  {
    assert Members(left) + Members(right) == Members(right) + Members(left);
    assert Members(left) * Members(right) == Members(right) * Members(left);
  }

  /** Which of the two bodies comes first makes no difference. */
  lemma {:induction false} SimilaritySymmetric(left: MemoryAtomBody, right: MemoryAtomBody, policy: Policy)
    ensures SemanticSimilarity(left, right, policy) == SemanticSimilarity(right, left, policy)
  {
    hide Jaccard, SumCapped, Multiply;
    JaccardSymmetric(left.topicKeys, right.topicKeys);
    JaccardSymmetric(left.entityIds, right.entityIds);
  }

  /** Topics alone, entities alone and a shared outcome alone each bring exactly their own weight. */
  lemma {:induction false} EachWeightCounts(left: MemoryAtomBody, right: MemoryAtomBody, policy: Policy)
    ensures var sameTopics := Members(left.topicKeys) == Members(right.topicKeys) != {};
      var sameEntities := Members(left.entityIds) == Members(right.entityIds) != {};
      var noTopics := Members(left.topicKeys) !! Members(right.topicKeys);
      var noEntities := Members(left.entityIds) !! Members(right.entityIds);
      var sameOutcome := KnownOutcome(left) && left.outcomeClass == right.outcomeClass;
      var similarity := SemanticSimilarity(left, right, policy);
      && (sameTopics && noEntities && !sameOutcome ==> similarity == policy.similarityTopicWeight)
      && (noTopics && sameEntities && !sameOutcome ==> similarity == policy.similarityEntityWeight)
      && (noTopics && noEntities && sameOutcome ==> similarity == policy.similarityOutcomeWeight)
      && (noTopics && noEntities && !sameOutcome ==> similarity == 0)
  {
    hide Jaccard, Multiply;
    var topics, entities := Jaccard(left.topicKeys, right.topicKeys), Jaccard(left.entityIds, right.entityIds);
    var outcome: Ppm := if KnownOutcome(left) && left.outcomeClass == right.outcomeClass then SCALE else 0;
    UnitProducts(policy.similarityTopicWeight);
    UnitProducts(policy.similarityEntityWeight);
    UnitProducts(policy.similarityOutcomeWeight);
    ThreeSum(Multiply(policy.similarityTopicWeight, topics), Multiply(policy.similarityEntityWeight, entities),
      Multiply(policy.similarityOutcomeWeight, outcome));
  }

  /** The accepted weights add up to one, so the cap is inert: the similarity is the sum of the
      weighted overlaps of topics and entities and of the weighted agreement of known outcomes. */
  lemma {:induction false} SimilarityNeverCaps(left: MemoryAtomBody, right: MemoryAtomBody)
    ensures var sameOutcome := KnownOutcome(left) && left.outcomeClass == right.outcomeClass;
      SemanticSimilarity(left, right, POC_V1) ==
        Multiply(POC_V1.similarityTopicWeight, Jaccard(left.topicKeys, right.topicKeys))
        + Multiply(POC_V1.similarityEntityWeight, Jaccard(left.entityIds, right.entityIds))
        + (if sameOutcome then POC_V1.similarityOutcomeWeight else 0)
  {
    hide Jaccard, Multiply;
    var topics, entities := Jaccard(left.topicKeys, right.topicKeys), Jaccard(left.entityIds, right.entityIds);
    var outcome: Ppm := if KnownOutcome(left) && left.outcomeClass == right.outcomeClass then SCALE else 0;
    UnitProducts(POC_V1.similarityOutcomeWeight);
    ThreeSum(Multiply(POC_V1.similarityTopicWeight, topics), Multiply(POC_V1.similarityEntityWeight, entities),
      Multiply(POC_V1.similarityOutcomeWeight, outcome));
  }

  lemma {:induction false} ThreeSum(a: nat, b: nat, c: nat)
    ensures Sum([a, b, c]) == a + b + c
  {
    var s: seq<nat> := [a, b, c];
    assert s[..2] == [a, b] && s[..2][..1] == [a];
    assert Sum([a]) == a;
    assert Sum([a, b]) == a + b;
  }

  // ---------- cohesion ----------

  /** The least similarity of one body to a list of others. */
  function WeakestLink(body: MemoryAtomBody, others: seq<MemoryAtomBody>, policy: Policy): Ppm
  {
    if others == [] then SCALE
    else
      var n := |others| - 1;
      Min(WeakestLink(body, others[..n], policy), SemanticSimilarity(body, others[n], policy))
  }

  /** The least similarity of any pair; one when there is no pair. */
  function Cohesion(bodies: seq<MemoryAtomBody>, policy: Policy): Ppm
  {
    if bodies == [] then SCALE
    else Min(WeakestLink(bodies[0], bodies[1..], policy), Cohesion(bodies[1..], policy))
  }

  /** The two nested loops over the shrinking tail. */
  method MeasureCohesion(bodies: seq<MemoryAtomBody>, policy: Policy) returns (cohesion: Ppm)
    ensures cohesion == Cohesion(bodies, policy)
  {
    hide SemanticSimilarity;
    cohesion := SCALE;
    var remaining := bodies;
    while remaining != []
      invariant Min(cohesion, Cohesion(remaining, policy)) == Cohesion(bodies, policy)
    {
      var left, tail := remaining[0], remaining[1..];
      ghost var start := cohesion;
      for i := 0 to |tail|
        invariant cohesion == Min(start, WeakestLink(left, tail[..i], policy))
      {
        assert tail[..i + 1][..i] == tail[..i];
        cohesion := Min(cohesion, SemanticSimilarity(left, tail[i], policy));
      }
      assert tail[..|tail|] == tail;
      remaining := tail;
    }
  }

  lemma {:induction false} WeakestLinkAtLeast(body: MemoryAtomBody, others: seq<MemoryAtomBody>, policy: Policy,
      bound: Ppm)
    ensures WeakestLink(body, others, policy) >= bound <==>
      forall o :: o in others ==> SemanticSimilarity(body, o, policy) >= bound
  {
    hide SemanticSimilarity;
    if others != [] {
      var n := |others| - 1;
      var before := others[..n];
      WeakestLinkAtLeast(body, before, policy, bound);
      assert others == before + [others[n]];
      assert forall o :: o in others <==> o in before || o == others[n];
      assert WeakestLink(body, others, policy) ==
        Min(WeakestLink(body, before, policy), SemanticSimilarity(body, others[n], policy));
    }
  }

  ghost predicate PairsReach(bodies: seq<MemoryAtomBody>, policy: Policy, bound: Ppm) {
    forall i, j :: 0 <= i < j < |bodies| ==> SemanticSimilarity(bodies[i], bodies[j], policy) >= bound
  }

  lemma {:induction false} PairsReachCons(bodies: seq<MemoryAtomBody>, policy: Policy, bound: Ppm)
    requires bodies != []
    ensures PairsReach(bodies, policy, bound) <==>
      PairsReach(bodies[1..], policy, bound)
      && forall o :: o in bodies[1..] ==> SemanticSimilarity(bodies[0], o, policy) >= bound
  {
    hide SemanticSimilarity;
    var tail := bodies[1..];
    assert forall k :: 0 <= k < |tail| ==> tail[k] == bodies[k + 1];
    if PairsReach(bodies, policy, bound) {
      forall o | o in tail ensures SemanticSimilarity(bodies[0], o, policy) >= bound {
        var j :| 0 <= j < |tail| && tail[j] == o;
        assert bodies[j + 1] == o;
      }
    } else {
      var i, j :| 0 <= i < j < |bodies| && !(SemanticSimilarity(bodies[i], bodies[j], policy) >= bound);
      assert bodies[j] == tail[j - 1] && bodies[j] in tail && (i > 0 ==> bodies[i] == tail[i - 1]);
    }
  }

  /** Cohesion reaches a bound exactly when every pair does. */
  lemma {:induction false} CohesionAtLeast(bodies: seq<MemoryAtomBody>, policy: Policy, bound: Ppm)
    ensures Cohesion(bodies, policy) >= bound <==> PairsReach(bodies, policy, bound)
  {
    hide SemanticSimilarity, PairsReach;
    if bodies == [] {
      assert PairsReach([], policy, bound) by { NoPairs(policy, bound); }
    } else {
      CohesionAtLeast(bodies[1..], policy, bound);
      WeakestLinkAtLeast(bodies[0], bodies[1..], policy, bound);
      PairsReachCons(bodies, policy, bound);
    }
  }

  lemma {:induction false} NoPairs(policy: Policy, bound: Ppm)
    ensures PairsReach([], policy, bound)
  {
  }
}
