/** Scoring a cluster of episodes and building the semantic body they consolidate into. */
module Consolidation {
  import opened Wrappers
  import opened Numbers
  import opened Sequences
  import opened Fixed
  import opened Digests
  import opened Model
  import opened Validation
  import opened Similarity
  import opened Consensus

  // ---------- the members of a cluster ----------

  predicate IndicesOf(candidates: seq<RetirementCandidate>, cluster: seq<nat>) {
    forall i :: 0 <= i < |cluster| ==> cluster[i] < |candidates|
  }

  function Pick(candidates: seq<RetirementCandidate>, cluster: seq<nat>): (r: seq<RetirementCandidate>)
    requires IndicesOf(candidates, cluster)
    ensures |r| == |cluster| && forall i :: 0 <= i < |cluster| ==> r[i] == candidates[cluster[i]]
  {
    seq(|cluster|, i requires 0 <= i < |cluster| => candidates[cluster[i]])
  }

  function BodyOf(candidate: RetirementCandidate): Option<MemoryAtomBody> {
    candidate.body
  }

  function SessionOf(body: MemoryAtomBody): Text {
    body.scope.sessionId
  }

  function Sessions(bodies: seq<MemoryAtomBody>): set<Text> {
    set b | b in bodies :: SessionOf(b)
  }

  // ---------- the score ----------

  function UtilityOf(candidate: RetirementCandidate): Ppm {
    candidate.state.ValidatedUtility()
  }

  function SalienceOf(body: MemoryAtomBody): Ppm {
    body.formationSignals.salience
  }

  function NoveltyOf(body: MemoryAtomBody): Ppm {
    body.formationSignals.novelty
  }

  function UncertaintyOf(body: MemoryAtomBody): Ppm {
    body.formationSignals.uncertainty
  }

  function PositiveTotal(support: Ppm, diversity: Ppm, utility: Ppm, salience: Ppm, cohesion: Ppm, novelty: Ppm,
      policy: Policy): nat
  {
    Multiply(policy.consolidationSupportWeight, support) + Multiply(policy.consolidationDiversityWeight, diversity)
    + Multiply(policy.consolidationUtilityWeight, utility) + Multiply(policy.consolidationSalienceWeight, salience)
    + Multiply(policy.consolidationCohesionWeight, cohesion) + Multiply(policy.consolidationNoveltyWeight, novelty)
  }

  function ScoreTotal(positive: nat, uncertainty: Ppm, policy: Policy): Ppm {
    Min(SaturatingSub(positive, Multiply(policy.consolidationUncertaintyWeight, uncertainty)), SCALE)
  }

  /** `consolidation_score` on the members of a cluster. */
  function ScoreOf(members: seq<RetirementCandidate>, policy: Policy): ConsolidationScore {
    var bodies := FilterMap(BodyOf, members);
    var support := Ratio(CountAsU64(|bodies|), policy.supportSaturationAtoms);
    var diversity := Ratio(CountAsU64(|Sessions(bodies)|), CountAsU64(|bodies|));
    var utility := MeanOf(Map(UtilityOf, members));
    var salience := MeanOf(Map(SalienceOf, bodies));
    var novelty := MeanOf(Map(NoveltyOf, bodies));
    var uncertainty := MeanOf(Map(UncertaintyOf, bodies));
    var cohesion := Cohesion(bodies, policy);
    var positive := PositiveTotal(support, diversity, utility, salience, cohesion, novelty, policy);
    ConsolidationScore(support, diversity, utility, salience, cohesion, novelty, uncertainty,
      ScoreTotal(positive, uncertainty, policy))
  }

  method ScoreCluster(members: seq<RetirementCandidate>, policy: Policy) returns (score: ConsolidationScore)
    ensures score == ScoreOf(members, policy)
  {
    hide MeanOf, Cohesion, Ratio, PositiveTotal, ScoreTotal, Sessions, SemanticSimilarity;
    var bodies := FilterMap(BodyOf, members);
    var support := Ratio(CountAsU64(|bodies|), policy.supportSaturationAtoms);
    var diversity := Ratio(CountAsU64(|Sessions(bodies)|), CountAsU64(|bodies|));
    var utility := Mean(Map(UtilityOf, members));
    var salience := Mean(Map(SalienceOf, bodies));
    var novelty := Mean(Map(NoveltyOf, bodies));
    var uncertainty := Mean(Map(UncertaintyOf, bodies));
    var cohesion := MeasureCohesion(bodies, policy);
    var positive := PositiveTotal(support, diversity, utility, salience, cohesion, novelty, policy);
    score := ConsolidationScore(support, diversity, utility, salience, cohesion, novelty, uncertainty,
      ScoreTotal(positive, uncertainty, policy));
  }

  lemma {:induction false} WeightedBound(weight: Ppm, value: Ppm)
    ensures Multiply(weight, value) <= weight
  {
  }

  /** The positive weights of the policy add up to one, so the cap on the total never fires:
      the total is the weighted sum less the weighted uncertainty, floored at zero. */
  lemma {:induction false} TotalNeverCaps(members: seq<RetirementCandidate>)
    ensures var s := ScoreOf(members, POC_V1);
      s.total == SaturatingSub(
        PositiveTotal(s.support, s.diversity, s.utility, s.salience, s.cohesion, s.novelty, POC_V1),
        Multiply(POC_V1.consolidationUncertaintyWeight, s.uncertainty))
  {
    hide MeanOf, Cohesion, Ratio, Multiply, Sessions;
    var s := ScoreOf(members, POC_V1);
    WeightedBound(POC_V1.consolidationSupportWeight, s.support);
    WeightedBound(POC_V1.consolidationDiversityWeight, s.diversity);
    WeightedBound(POC_V1.consolidationUtilityWeight, s.utility);
    WeightedBound(POC_V1.consolidationSalienceWeight, s.salience);
    WeightedBound(POC_V1.consolidationCohesionWeight, s.cohesion);
    WeightedBound(POC_V1.consolidationNoveltyWeight, s.novelty);
  }

  // ---------- the semantic body ----------

  function Decimal(n: nat): Text {
    if n < 10 then [48 + n] else Decimal(n / 10) + [48 + n % 10]
  }

  /** `body.atom_id().unwrap_or_default()`, the sort key. */
  function SortKey(body: MemoryAtomBody, hash: Hash): AtomId {
    var id := AtomIdOf(body, hash);
    if id.Ok? then id.value else 0
  }

  function ByAddress(hash: Hash): (MemoryAtomBody, MemoryAtomBody) -> bool {
    (a, b) => SortKey(a, hash) <= SortKey(b, hash)
  }

  function RepositoryOf(b: MemoryAtomBody): Option<Text> { b.scope.repositoryId }
  function TaskOf(b: MemoryAtomBody): Option<Text> { b.scope.taskId }
  function AgentOf(b: MemoryAtomBody): Option<Text> { b.scope.agentId }
  function GoalOf(b: MemoryAtomBody): Option<Text> { b.goal }
  function GoalKeyOf(b: MemoryAtomBody): Option<Text> { b.goalKey }
  function OutcomeClassOf(b: MemoryAtomBody): Option<Text> { b.outcomeClass }
  function PlanOf(b: MemoryAtomBody): seq<Text> { b.plan }
  function StateBeforeOf(b: MemoryAtomBody): TextMap { b.internalStateBefore }
  function StateAfterOf(b: MemoryAtomBody): TextMap { b.internalStateAfter }
  function TopicsOf(b: MemoryAtomBody): TextSet { b.topicKeys }
  function EntitiesOf(b: MemoryAtomBody): TextSet { b.entityIds }

  function LeastStart(bodies: seq<MemoryAtomBody>, otherwise: u64): u64 {
    if bodies == [] then otherwise
    else if |bodies| == 1 then bodies[0].interval.startedAtUs
    else Min(bodies[0].interval.startedAtUs, LeastStart(bodies[1..], otherwise))
  }

  function GreatestEnd(bodies: seq<MemoryAtomBody>, otherwise: u64): u64 {
    if bodies == [] then otherwise
    else if |bodies| == 1 then bodies[0].interval.endedAtUs
    else Max(bodies[0].interval.endedAtUs, GreatestEnd(bodies[1..], otherwise))
  }

  function SelfDigest(source: AtomId): SourceDigest {
    SourceDigest(source, source)
  }

  function Derived(source: AtomId): Relation {
    Relation(DerivedFrom, source)
  }

  function SemanticPayload(sources: seq<AtomId>, score: ConsolidationScore, policy: Policy): MemoryPayload {
    Semantic(sources, Map(SelfDigest, SortDedup(sources)), score,
             policy.consensusNumerator, policy.consensusDenominator, None)
  }

  /** The body that consolidates the given sources, in the order given. */
  function ConsolidatedBody(bodies: seq<MemoryAtomBody>, sources: seq<AtomId>, score: ConsolidationScore,
      snapshot: RetirementSnapshot, policyDigest: Digest, policy: Policy): MemoryAtomBody
    requires policy.consensusDenominator > 0
  {
    var required := ConsensusRequired(|bodies|, policy);
    MemoryAtomBody(
      contractVersion := Ascii("atom-v1"),
      scope := MemoryScope(
        snapshot.memorySpaceId,
        ConsensusOptional(RepositoryOf, bodies, required),
        ConsensusOptional(TaskOf, bodies, required),
        ConsensusOptional(AgentOf, bodies, required),
        Ascii("semantic:") + Decimal(snapshot.cohortDay)),
      interval := TimeInterval(LeastStart(bodies, snapshot.asOfUs), GreatestEnd(bodies, snapshot.asOfUs),
        snapshot.asOfUs),
      trigger := Ascii("poc-v1-retirement"),
      sealReason := Checkpoint,
      goal := ConsensusOptional(GoalOf, bodies, required),
      plan := ConsensusBodyStrings(PlanOf, bodies, required),
      internalStateBefore := ConsensusMap(StateBeforeOf, bodies, required),
      internalStateAfter := ConsensusMap(StateAfterOf, bodies, required),
      observations := [],
      interpretations := [],
      beliefs := [],
      decisions := [],
      rejectedAlternatives := [],
      actions := [],
      outcome := None,
      feedback := [],
      formationSignals := FormationSignals(score.utility, score.salience, score.novelty, score.uncertainty),
      topicKeys := ConsensusSet(TopicsOf, bodies, required),
      entityIds := ConsensusSet(EntitiesOf, bodies, required),
      outcomeClass := ConsensusOptional(OutcomeClassOf, bodies, required),
      goalKey := ConsensusOptional(GoalKeyOf, bodies, required),
      provenance := Provenance(Ascii("naome-memory-core/plan_retirement"), sources, policyDigest),
      relations := Map(Derived, sources),
      artifacts := [],
      retentionPermission := SemanticAllowed,
      payload := SemanticPayload(sources, score, policy))
  }

  /** `build_semantic_body`. */
  function BuildSemanticBody(members: seq<RetirementCandidate>, score: ConsolidationScore,
      snapshot: RetirementSnapshot, authority: Authority, policy: Policy): Result<MemoryAtomBody>
    requires policy.consensusDenominator > 0
  {
    var found :- TryMap((c: RetirementCandidate) => c.body.OkOr(CanonicalEncoding), members);
    var bodies := SortBy(ByAddress(authority.hash), found);
    var sources :- TryMap((b: MemoryAtomBody) => AtomIdOf(b, authority.hash), bodies);
    Ok(ConsolidatedBody(bodies, sources, score, snapshot, authority.policyDigest, policy))
  }

  // ---------- the built body is valid except for its size ----------

  lemma {:induction false} IntervalBounds(bodies: seq<MemoryAtomBody>, otherwise: u64, limit: u64)
    requires bodies != []
    requires forall b :: b in bodies ==> b.interval.startedAtUs <= b.interval.endedAtUs <= limit
    ensures LeastStart(bodies, otherwise) <= GreatestEnd(bodies, otherwise) <= limit
  {
    if |bodies| > 1 {
      assert forall b :: b in bodies[1..] ==> b in bodies;
      IntervalBounds(bodies[1..], otherwise, limit);
    }
  }

  lemma {:induction false} OptionalNotEmpty(field: MemoryAtomBody -> Option<Text>, bodies: seq<MemoryAtomBody>,
      required: nat)
    ensures ConsensusOptional(field, bodies, required) != Some([])
  {
    var values := Gather(Stated(field), bodies);
    TextIsOrdered();
    AgreedIsExact(TextLess, values, required);
    NothingEmptyGathered(field, bodies);
  }

  lemma {:induction false} NothingEmptyGathered(field: MemoryAtomBody -> Option<Text>, bodies: seq<MemoryAtomBody>)
    ensures [] !in Gather(Stated(field), bodies)
  {
    if bodies != [] {
      NothingEmptyGathered(field, bodies[..|bodies| - 1]);
    }
  }

  lemma {:induction false} DerivedSources(sources: seq<AtomId>)
    ensures FilterMap(DerivedTarget, Map(Derived, sources)) == sources
    ensures FilterMap(SupersedesTarget, Map(Derived, sources)) == []
  {
    if sources != [] {
      MapCons(Derived, sources);
      var rest := Map(Derived, sources[1..]);
      assert ([Derived(sources[0])] + rest)[1..] == rest;
      DerivedSources(sources[1..]);
    }
  }

  lemma {:induction false} LookupSelf(sources: seq<AtomId>, source: AtomId)
    requires source in sources
    ensures LookupSource(Map(SelfDigest, sources), source) == Some(source)
  {
    MapCons(SelfDigest, sources);
    var rest := Map(SelfDigest, sources[1..]);
    assert ([SelfDigest(sources[0])] + rest)[1..] == rest;
    if sources[0] != source {
      LookupSelf(sources[1..], source);
    }
  }

  /** The fields that the semantic rules look at. */
  ghost predicate SemanticShape(body: MemoryAtomBody, sources: seq<AtomId>, score: ConsolidationScore) {
    && body.retentionPermission == SemanticAllowed
    && body.observations == [] && body.interpretations == [] && body.beliefs == [] && body.decisions == []
    && body.rejectedAlternatives == [] && body.actions == [] && body.outcome.None?
    && body.feedback == [] && body.artifacts == []
    && body.payload == SemanticPayload(sources, score, POC_V1)
    && body.provenance.sourceEventDigests == sources
    && body.relations == Map(Derived, sources)
  }

  lemma {:induction false} SelfDigestsClose(sources: seq<AtomId>)
    requires StrictlyIncreasing(sources)
    ensures SortDedup(sources) == sources
    ensures forall source :: source in sources ==> LookupSource(Map(SelfDigest, sources), source) == Some(source)
  {
    hide LookupSource;
    forall source | source in sources ensures LookupSource(Map(SelfDigest, sources), source) == Some(source) {
      LookupSelf(sources, source);
    }
  }

  lemma {:induction false} SemanticRulesHold(body: MemoryAtomBody, sources: seq<AtomId>, score: ConsolidationScore)
    requires SemanticShape(body, sources, score)
    requires StrictlyIncreasing(sources) && |sources| >= POC_V1.minSemanticSources
    ensures ValidateSemanticBody(body, POC_V1).Ok?
  {
    hide LookupSource, SortDedup, StrictlyIncreasing, FilterMap;
    DerivedSources(sources);
    SelfDigestsClose(sources);
    StepsIncrease(sources);
    var payload := body.payload;
    assert |payload.sourceBodyDigests| == |payload.sourceIds|;
  }

  lemma {:induction false} StepsIncrease(s: seq<int>)
    requires StrictlyIncreasing(s)
    ensures forall i :: 0 <= i < |s| - 1 ==> s[i] < s[i + 1]
  {
  }

  /** A consolidated body passes every validation rule except, possibly, the size limit. */
  lemma {:induction false} ConsolidatedBodyIsStructured(bodies: seq<MemoryAtomBody>, sources: seq<AtomId>,
      score: ConsolidationScore, snapshot: RetirementSnapshot, authority: Authority)
    requires bodies != [] && snapshot.memorySpaceId != []
    requires StrictlyIncreasing(sources) && |sources| >= POC_V1.minSemanticSources
    requires forall b :: b in bodies ==> b.interval.startedAtUs <= b.interval.endedAtUs <= snapshot.asOfUs
    ensures var body := ConsolidatedBody(bodies, sources, score, snapshot, authority.policyDigest, POC_V1);
      ValidateStructure(body, POC_V1, authority).Ok? && body.payload.Semantic?
  {
    hide ConsensusOptional, ConsensusBodyStrings, ConsensusMap, ConsensusSet, LeastStart, GreatestEnd, Decimal,
      ConsensusRequired, ValidateSemanticBody, ValidateEpisodeBody;
    var body := ConsolidatedBody(bodies, sources, score, snapshot, authority.policyDigest, POC_V1);
    SemanticRulesHold(body, sources, score);
    IntervalBounds(bodies, snapshot.asOfUs, snapshot.asOfUs);
    var required := ConsensusRequired(|bodies|, POC_V1);
    OptionalNotEmpty(RepositoryOf, bodies, required);
    OptionalNotEmpty(TaskOf, bodies, required);
    OptionalNotEmpty(AgentOf, bodies, required);
    RelationsDistinct(sources);
    assert body.relations == Map(Derived, sources);
    assert ValidateScope(body.scope).Ok?;
  }

  lemma {:induction false} RelationsDistinct(sources: seq<AtomId>)
    requires StrictlyIncreasing(sources)
    ensures Distinct(Map(Derived, sources))
  {
  }

  // ---------- what the built body says ----------

  /** At least two thirds of the sources satisfy a predicate. */
  ghost predicate Shared(bodies: seq<MemoryAtomBody>, p: MemoryAtomBody -> bool) {
    CountIf(p, bodies) >= ConsensusRequired(|bodies|, POC_V1)
  }

  ghost predicate StatedByMost(bodies: seq<MemoryAtomBody>, field: MemoryAtomBody -> Option<Text>, v: Text) {
    v != [] && Shared(bodies, (b: MemoryAtomBody) => field(b) == Some(v))
  }

  ghost predicate ListedByMost(bodies: seq<MemoryAtomBody>, field: MemoryAtomBody -> seq<Text>, v: Text) {
    v != [] && Shared(bodies, (b: MemoryAtomBody) => v in field(b))
  }

  ghost predicate KeyedByMost(bodies: seq<MemoryAtomBody>, field: MemoryAtomBody -> TextSet, v: Text) {
    v != [] && Shared(bodies, (b: MemoryAtomBody) => v in field(b))
  }

  ghost predicate MappedByMost(bodies: seq<MemoryAtomBody>, field: MemoryAtomBody -> TextMap, pair: TextPair) {
    Shared(bodies, (b: MemoryAtomBody) => pair in field(b))
  }

  /** Every optional field of a consolidated body is the value that two thirds of its sources
      state, and absent when there is none. */
  lemma {:induction false} OptionalFieldsAgree(bodies: seq<MemoryAtomBody>, sources: seq<AtomId>,
      score: ConsolidationScore, snapshot: RetirementSnapshot, policyDigest: Digest, v: Text)
    requires bodies != []
    ensures var body := ConsolidatedBody(bodies, sources, score, snapshot, policyDigest, POC_V1);
      && (body.scope.repositoryId == Some(v) <==> StatedByMost(bodies, RepositoryOf, v))
      && (body.scope.taskId == Some(v) <==> StatedByMost(bodies, TaskOf, v))
      && (body.scope.agentId == Some(v) <==> StatedByMost(bodies, AgentOf, v))
      && (body.goal == Some(v) <==> StatedByMost(bodies, GoalOf, v))
      && (body.goalKey == Some(v) <==> StatedByMost(bodies, GoalKeyOf, v))
      && (body.outcomeClass == Some(v) <==> StatedByMost(bodies, OutcomeClassOf, v))
  {
    hide ConsensusOptional, ConsensusBodyStrings, ConsensusMap, ConsensusSet, LeastStart, GreatestEnd, Decimal,
      ConsensusRequired, CountIf, SemanticPayload, Map;
    OptionalIsUnique(RepositoryOf, bodies, v);
    OptionalIsUnique(TaskOf, bodies, v);
    OptionalIsUnique(AgentOf, bodies, v);
    OptionalIsUnique(GoalOf, bodies, v);
    OptionalIsUnique(GoalKeyOf, bodies, v);
    OptionalIsUnique(OutcomeClassOf, bodies, v);
  }

  /** Every collection of a consolidated body holds exactly what two thirds of its sources hold. */
  lemma {:induction false} CollectionsAgree(bodies: seq<MemoryAtomBody>, sources: seq<AtomId>,
      score: ConsolidationScore, snapshot: RetirementSnapshot, policyDigest: Digest, v: Text, pair: TextPair)
    requires bodies != []
    ensures var body := ConsolidatedBody(bodies, sources, score, snapshot, policyDigest, POC_V1);
      && (v in body.plan <==> ListedByMost(bodies, PlanOf, v))
      && (v in body.topicKeys <==> KeyedByMost(bodies, TopicsOf, v))
      && (v in body.entityIds <==> KeyedByMost(bodies, EntitiesOf, v))
      && (pair in body.internalStateBefore <==> MappedByMost(bodies, StateBeforeOf, pair))
      && (pair in body.internalStateAfter <==> MappedByMost(bodies, StateAfterOf, pair))
  {
    hide ConsensusOptional, ConsensusBodyStrings, ConsensusMap, ConsensusSet, LeastStart, GreatestEnd, Decimal,
      ConsensusRequired, CountIf, SemanticPayload, Map;
    var required := ConsensusRequired(|bodies|, POC_V1);
    RequiredIsMajority(|bodies|);
    BodyStringsAreExact(PlanOf, bodies, required, v);
    SetIsExact(TopicsOf, bodies, required, v);
    SetIsExact(EntitiesOf, bodies, required, v);
    MapIsExact(StateBeforeOf, bodies, pair);
    MapIsExact(StateAfterOf, bodies, pair);
  }

  /** Whatever the other components are, each one adds exactly its own weighted share. */
  lemma {:induction false} EachWeightBinds(support: Ppm, diversity: Ppm, utility: Ppm, salience: Ppm, cohesion: Ppm,
      novelty: Ppm, policy: Policy)
    ensures var total := PositiveTotal(support, diversity, utility, salience, cohesion, novelty, policy);
      && IsShare(total - PositiveTotal(0, diversity, utility, salience, cohesion, novelty, policy),
                 policy.consolidationSupportWeight, support)
      && IsShare(total - PositiveTotal(support, 0, utility, salience, cohesion, novelty, policy),
                 policy.consolidationDiversityWeight, diversity)
      && IsShare(total - PositiveTotal(support, diversity, 0, salience, cohesion, novelty, policy),
                 policy.consolidationUtilityWeight, utility)
      && IsShare(total - PositiveTotal(support, diversity, utility, 0, cohesion, novelty, policy),
                 policy.consolidationSalienceWeight, salience)
      && IsShare(total - PositiveTotal(support, diversity, utility, salience, 0, novelty, policy),
                 policy.consolidationCohesionWeight, cohesion)
      && IsShare(total - PositiveTotal(support, diversity, utility, salience, cohesion, 0, policy),
                 policy.consolidationNoveltyWeight, novelty)
    ensures PositiveTotal(0, 0, 0, 0, 0, 0, policy) == 0
  {
    hide Multiply, IsShare;
    SharesOf(policy.consolidationSupportWeight, support);
    SharesOf(policy.consolidationDiversityWeight, diversity);
    SharesOf(policy.consolidationUtilityWeight, utility);
    SharesOf(policy.consolidationSalienceWeight, salience);
    SharesOf(policy.consolidationCohesionWeight, cohesion);
    SharesOf(policy.consolidationNoveltyWeight, novelty);
  }

  lemma {:induction false} SharesOf(weight: Ppm, value: Ppm)
    ensures IsShare(Multiply(weight, value), weight, value) && Multiply(weight, 0) == 0
  {
    ProductIsFloor(weight, value);
    UnitProducts(weight);
  }

  /** The total gives uncertainty its own weighted share, down to zero and up to one. */
  lemma {:induction false} UncertaintyCounts(positive: nat, uncertainty: Ppm, policy: Policy)
    ensures exists share: nat ::
      && IsShare(share, policy.consolidationUncertaintyWeight, uncertainty)
      && (share <= positive <= share + SCALE ==> ScoreTotal(positive, uncertainty, policy) == positive - share)
      && (positive < share ==> ScoreTotal(positive, uncertainty, policy) == 0)
      && (positive > share + SCALE ==> ScoreTotal(positive, uncertainty, policy) == SCALE)
  {
    hide Multiply, IsShare;
    SharesOf(policy.consolidationUncertaintyWeight, uncertainty);
  }
}
