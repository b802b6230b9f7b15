/** From clusters to semantic atoms: the gates a cluster must pass, the order of the candidates,
    and the greedy choice under a count and a byte budget. */
module SemanticSelection {
  import opened Wrappers
  import opened Numbers
  import opened Sequences
  import opened Fixed
  import opened Model
  import opened Validation
  import opened Similarity
  import opened Clustering
  import opened Consolidation
  import opened Plans
  import opened Cohort

  // ---------- clusters ----------

  /** Whether the body at one index is similar enough to the body at another. */
  function Linked(candidates: seq<RetirementCandidate>, policy: Policy): Link {
    (index: nat, member: nat) =>
      index < |candidates| && member < |candidates|
      && candidates[index].body.Some? && candidates[member].body.Some?
      && SemanticSimilarity(candidates[index].body.value, candidates[member].body.value, policy)
           >= policy.clusterSimilarityThreshold
  }

  function Clusters(candidates: seq<RetirementCandidate>, policy: Policy): (r: seq<seq<nat>>)
    ensures forall c :: 0 <= c < |r| ==> IndicesOf(candidates, r[c])
  {
    var eligible := PermittedIndices(candidates, Consolidates);
    PermittedAreExact(candidates, Consolidates);
    ClustersInRange(Linked(candidates, policy), eligible);
    CompleteLink(Linked(candidates, policy), eligible)
  }

  lemma {:induction false} ClustersInRange(linked: Link, ordered: seq<nat>)
    requires StrictlyIncreasing(ordered)
    ensures forall c, i :: 0 <= c < |CompleteLink(linked, ordered)| && 0 <= i < |CompleteLink(linked, ordered)[c]| ==>
      CompleteLink(linked, ordered)[c][i] in ordered
  {
    var clusters := CompleteLink(linked, ordered);
    CompleteLinkIsClustering(linked, ordered);
    FlattenMembers(clusters);
    forall c, i | 0 <= c < |clusters| && 0 <= i < |clusters[c]| ensures clusters[c][i] in ordered {
      assert clusters[c][i] in clusters[c];
      assert clusters[c][i] in Flatten(clusters) && clusters[c][i] in multiset(Flatten(clusters));
    }
  }

  // ---------- semantic candidates ----------

  datatype Scored = Scored(score: ConsolidationScore, planned: PlannedSemantic)

  /** The semantic candidate of a cluster, if the cluster passes the support and score gates. */
  function Consider(members: seq<RetirementCandidate>, snapshot: RetirementSnapshot, authority: Authority,
      policy: Policy): Result<Option<Scored>>
    requires policy.consensusDenominator > 0
  {
    if |members| < policy.minSemanticSources then Ok(None)
    else if |Sessions(FilterMap(BodyOf, members))| < policy.minSemanticSessions then Ok(None)
    else
      var score := ScoreOf(members, policy);
      if score.total < policy.consolidationThreshold then Ok(None)
      else
        var body :- BuildSemanticBody(members, score, snapshot, authority, policy);
        var _ :- ValidateMemoryAtomBody(body, policy, authority);
        var size :- EncodedSizeBytes(body);
        var atomId :- AtomIdOf(body, authority.hash);
        Ok(Some(Scored(score, PlannedSemantic(atomId, atomId, size, body))))
  }

  /** The candidates of all clusters, in cluster order, after those already found. */
  function ConsiderAll(candidates: seq<RetirementCandidate>, clusters: seq<seq<nat>>, found: seq<Scored>,
      snapshot: RetirementSnapshot, authority: Authority, policy: Policy): Result<seq<Scored>>
    requires policy.consensusDenominator > 0
    requires forall c :: 0 <= c < |clusters| ==> IndicesOf(candidates, clusters[c])
  {
    if clusters == [] then Ok(found)
    else
      var one :- Consider(Pick(candidates, clusters[0]), snapshot, authority, policy);
      ConsiderAll(candidates, clusters[1..], found + Singleton(one), snapshot, authority, policy)
  }

  method CollectSemanticCandidates(candidates: seq<RetirementCandidate>, clusters: seq<seq<nat>>,
      snapshot: RetirementSnapshot, authority: Authority, policy: Policy) returns (r: Result<seq<Scored>>)
    requires policy.consensusDenominator > 0
    requires forall c :: 0 <= c < |clusters| ==> IndicesOf(candidates, clusters[c])
    ensures r == ConsiderAll(candidates, clusters, [], snapshot, authority, policy)
  {
    hide Consider, IndicesOf;
    var found: seq<Scored> := [];
    for i := 0 to |clusters|
      invariant ConsiderAll(candidates, clusters, [], snapshot, authority, policy) ==
        ConsiderAll(candidates, clusters[i..], found, snapshot, authority, policy)
    {
      assert clusters[i..][1..] == clusters[i + 1..] && clusters[i..][0] == clusters[i];
      var one := Consider(Pick(candidates, clusters[i]), snapshot, authority, policy);
      if one.Err? {
        return Err(one.error);
      }
      found := found + Singleton(one.value);
    }
    r := Ok(found);
  }

  /** Descending total score, then ascending address. */
  predicate ScoredLeq(a: Scored, b: Scored) {
    a.score.total > b.score.total || (a.score.total == b.score.total && a.planned.atomId <= b.planned.atomId)
  }

  // ---------- greedy selection ----------

  datatype Selection = Selection(decisions: seq<SemanticDecision>, atoms: seq<PlannedSemantic>, bytes: u64)

  /** `semantic_candidate_disposition`: limits first, then the addition. */
  function Dispose(candidateBytes: u64, selectedCount: nat, countBudget: nat, selectedBytes: u64, policy: Policy):
    Result<(Disposition, u64)>
  {
    if candidateBytes > policy.atomHardMaxBytes then Ok((SkippedAtomHardLimit, selectedBytes))
    else if selectedCount >= countBudget then Ok((SkippedCountBudget, selectedBytes))
    else
      var total :- CheckedAdd(selectedBytes, candidateBytes).OkOr(CanonicalEncoding);
      if total > policy.semanticBodyBudgetBytes then Ok((SkippedByteBudget, selectedBytes))
      else Ok((Selected, total))
  }

  function Judge(scored: Scored, disposition: Disposition): SemanticDecision
    requires scored.planned.body.payload.Semantic?
  {
    SemanticDecision(scored.planned.atomId, scored.planned.body.payload.sourceIds, scored.score,
                     scored.planned.canonicalSizeBytes, disposition)
  }

  function SelectOne(scored: Scored, countBudget: nat, before: Selection, policy: Policy): Result<Selection> {
    if scored.planned.body.payload.Episode? then Err(CanonicalEncoding)
    else
      var judged :- Dispose(scored.planned.canonicalSizeBytes, |before.atoms|, countBudget, before.bytes, policy);
      Ok(Selection(
        before.decisions + [Judge(scored, judged.0)],
        if judged.0 == Selected then before.atoms + [scored.planned] else before.atoms,
        judged.1))
  }

  function SelectFrom(scored: seq<Scored>, countBudget: nat, before: Selection, policy: Policy): Result<Selection> {
    if scored == [] then Ok(before)
    else
      var next :- SelectOne(scored[0], countBudget, before, policy);
      SelectFrom(scored[1..], countBudget, next, policy)
  }

  const NOTHING: Selection := Selection([], [], 0)

  method SelectGreedily(scored: seq<Scored>, countBudget: nat, policy: Policy) returns (r: Result<Selection>)
    ensures r == SelectFrom(scored, countBudget, NOTHING, policy)
  {
    hide Dispose;
    var atoms: seq<PlannedSemantic>, decisions: seq<SemanticDecision>, bytes: u64 := [], [], 0;
    for i := 0 to |scored|
      invariant SelectFrom(scored, countBudget, NOTHING, policy) ==
        SelectFrom(scored[i..], countBudget, Selection(decisions, atoms, bytes), policy)
    {
      assert scored[i..][1..] == scored[i + 1..];
      var semantic := scored[i].planned;
      if semantic.body.payload.Episode? {
        return Err(CanonicalEncoding);
      }
      var judged := Dispose(semantic.canonicalSizeBytes, |atoms|, countBudget, bytes, policy);
      if judged.Err? {
        return Err(judged.error);
      }
      bytes := judged.value.1;
      decisions := decisions + [Judge(scored[i], judged.value.0)];
      if judged.value.0 == Selected {
        atoms := atoms + [semantic];
      }
    }
    r := Ok(Selection(decisions, atoms, bytes));
  }

  function SemanticCountBudget(cohort: nat, policy: Policy): nat {
    Min(CeilCount(policy.semanticRate, cohort), policy.semanticCountMax)
  }

  predicate AllSemantic(atoms: seq<PlannedSemantic>) {
    forall i :: 0 <= i < |atoms| ==> atoms[i].body.payload.Semantic?
  }

  /** The semantic part: the candidates in order, and the greedy selection among them. */
  function SemanticCandidates(candidates: seq<RetirementCandidate>, header: RetirementSnapshot, policy: Policy,
      authority: Authority): Result<seq<Scored>>
    requires policy.consensusDenominator > 0
  {
    var found :- ConsiderAll(candidates, Clusters(candidates, policy), [], header, authority, policy);
    Ok(SortBy(ScoredLeq, found))
  }

  lemma {:induction false} SelectedAreSemantic(scored: seq<Scored>, countBudget: nat, before: Selection, policy: Policy)
    requires SelectFrom(scored, countBudget, before, policy).Ok? && AllSemantic(before.atoms)
    ensures AllSemantic(SelectFrom(scored, countBudget, before, policy).value.atoms)
  {
    if scored != [] {
      SelectedAreSemantic(scored[1..], countBudget, SelectOne(scored[0], countBudget, before, policy).value, policy);
    }
  }
}
