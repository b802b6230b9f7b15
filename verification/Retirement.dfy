/** The retirement planner: admit and order a cohort, consolidate clusters into semantic atoms
    under budgets, draw the episodes to keep exactly, decide every candidate's fate and project
    the resulting state. */
module Retirement {
  import opened Wrappers
  import opened Numbers
  import opened Sequences
  import opened Digests
  import opened Model
  import opened Validation
  import opened Lottery
  import opened Clustering
  import opened Consolidation
  import opened Plans
  import opened Cohort
  import opened SemanticSelection
  import opened EpisodicDraw

  // ---------- decisions ----------

  /** The addresses of the selected semantic atoms that name the source, once per mention. */
  function Mentions(sources: seq<AtomId>, source: AtomId, atomId: AtomId): seq<AtomId> {
    if sources == [] then []
    else
      Mentions(sources[..|sources| - 1], source, atomId)
      + (if sources[|sources| - 1] == source then [atomId] else [])
  }

  function SemanticIdsFor(atoms: seq<PlannedSemantic>, source: AtomId): seq<AtomId>
    requires AllSemantic(atoms)
  {
    if atoms == [] then []
    else
      var last := atoms[|atoms| - 1];
      SemanticIdsFor(atoms[..|atoms| - 1], source) + Mentions(last.body.payload.sourceIds, source, last.atomId)
  }

  function AsSet(ids: seq<AtomId>): set<AtomId> {
    set id | id in ids
  }

  function Decide(candidate: RetirementCandidate, winners: set<AtomId>, semanticIds: seq<AtomId>): RetirementDecision {
    var exact := candidate.atomId in winners;
    RetirementDecision(
      candidate.atomId,
      SortBy(DigestLeq, semanticIds),
      exact,
      if exact && candidate.body.Some? then RetainedArtifactDigests(candidate.body.value) else [],
      candidate.body.Some? && KindOf(candidate.body.value) == EpisodeKind && !exact)
  }

  function DecideAll(candidates: seq<RetirementCandidate>, winners: seq<AtomId>, atoms: seq<PlannedSemantic>):
    (r: seq<RetirementDecision>)
    requires AllSemantic(atoms)
    ensures |r| == |candidates|
    ensures forall i :: 0 <= i < |r| ==>
      r[i] == Decide(candidates[i], AsSet(winners), SemanticIdsFor(atoms, candidates[i].atomId))
  {
    seq(|candidates|, i requires 0 <= i < |candidates| =>
      Decide(candidates[i], AsSet(winners), SemanticIdsFor(atoms, candidates[i].atomId)))
  }

  function Lookup(index: map<AtomId, seq<AtomId>>, id: AtomId): seq<AtomId> {
    if id in index then index[id] else []
  }

  /** The index after the first `count` atoms. */
  ghost predicate Indexes(index: map<AtomId, seq<AtomId>>, atoms: seq<PlannedSemantic>)
    requires AllSemantic(atoms)
  {
    forall id: AtomId :: Lookup(index, id) == SemanticIdsFor(atoms, id)
  }

  ghost predicate Extends(index: map<AtomId, seq<AtomId>>, before: map<AtomId, seq<AtomId>>, sources: seq<AtomId>,
      atomId: AtomId) {
    forall id: AtomId :: Lookup(index, id) == Lookup(before, id) + Mentions(sources, id, atomId)
  }

  lemma {:induction false} ExtendStep(index: map<AtomId, seq<AtomId>>, before: map<AtomId, seq<AtomId>>,
      sources: seq<AtomId>, j: nat, atomId: AtomId)
    requires j < |sources| && Extends(index, before, sources[..j], atomId)
    ensures Extends(index[sources[j] := Lookup(index, sources[j]) + [atomId]], before, sources[..j + 1], atomId)
  {
    hide Mentions;
    var after := index[sources[j] := Lookup(index, sources[j]) + [atomId]];
    forall id: AtomId ensures Lookup(after, id) == Lookup(before, id) + Mentions(sources[..j + 1], id, atomId) {
      MentionStep(sources, j, id, atomId);
      var earlier := Lookup(before, id) + Mentions(sources[..j], id, atomId);
      assert Lookup(index, id) == earlier;
      assert Lookup(after, id) == if id == sources[j] then earlier + [atomId] else earlier;
    }
  }

  lemma {:induction false} MentionStep(sources: seq<AtomId>, j: nat, id: AtomId, atomId: AtomId)
    requires j < |sources|
    ensures Mentions(sources[..j + 1], id, atomId) ==
      Mentions(sources[..j], id, atomId) + (if sources[j] == id then [atomId] else [])
  {
    assert sources[..j + 1][..j] == sources[..j];
  }

  /** Inverts the selected atoms into a map from source to semantic addresses. */
  method IndexSources(atoms: seq<PlannedSemantic>) returns (index: map<AtomId, seq<AtomId>>)
    requires AllSemantic(atoms)
    ensures Indexes(index, atoms)
  {
    index := map[];
    for i := 0 to |atoms|
      invariant Indexes(index, atoms[..i])
    {
      hide Extends;
      var sources := atoms[i].body.payload.sourceIds;
      ghost var before := index;
      assert Extends(index, before, sources[..0], atoms[i].atomId) by { ExtendsNothing(index, atoms[i].atomId); }
      for j := 0 to |sources|
        invariant Extends(index, before, sources[..j], atoms[i].atomId)
      {
        ExtendStep(index, before, sources, j, atoms[i].atomId);
        index := index[sources[j] := Lookup(index, sources[j]) + [atoms[i].atomId]];
      }
      assert sources[..|sources|] == sources;
      IndexStep(index, before, atoms, i);
    }
    assert atoms[..|atoms|] == atoms;
  }

  lemma {:induction false} ExtendsNothing(index: map<AtomId, seq<AtomId>>, atomId: AtomId)
    ensures Extends(index, index, [], atomId)
  {
  }

  lemma {:induction false} IndexStep(index: map<AtomId, seq<AtomId>>, before: map<AtomId, seq<AtomId>>,
      atoms: seq<PlannedSemantic>, i: nat)
    requires AllSemantic(atoms) && i < |atoms| && Indexes(before, atoms[..i])
    requires Extends(index, before, atoms[i].body.payload.sourceIds, atoms[i].atomId)
    ensures Indexes(index, atoms[..i + 1])
  {
    assert atoms[..i + 1][..i] == atoms[..i];
  }

  /** The index still answers for the candidates from `i` on. */
  ghost predicate Answers(index: map<AtomId, seq<AtomId>>, atoms: seq<PlannedSemantic>,
      candidates: seq<RetirementCandidate>, i: nat)
    requires AllSemantic(atoms)
  {
    forall k :: i <= k < |candidates| ==>
      Lookup(index, candidates[k].atomId) == SemanticIdsFor(atoms, candidates[k].atomId)
  }

  lemma {:induction false} TakingKeepsRest(index: map<AtomId, seq<AtomId>>, atoms: seq<PlannedSemantic>,
      candidates: seq<RetirementCandidate>, i: nat)
    requires AllSemantic(atoms) && i < |candidates| && Answers(index, atoms, candidates, i)
    requires forall k :: i < k < |candidates| ==> candidates[k].atomId != candidates[i].atomId
    ensures Answers(index - {candidates[i].atomId}, atoms, candidates, i + 1)
  {
    hide SemanticIdsFor;
  }

  lemma {:induction false} FullIndexAnswers(index: map<AtomId, seq<AtomId>>, atoms: seq<PlannedSemantic>,
      candidates: seq<RetirementCandidate>)
    requires AllSemantic(atoms) && Indexes(index, atoms)
    ensures Answers(index, atoms, candidates, 0)
  {
    hide SemanticIdsFor, Lookup;
  }

  /** One decision per candidate; each takes its entry out of the source index. */
  method MakeDecisions(candidates: seq<RetirementCandidate>, winners: seq<AtomId>, atoms: seq<PlannedSemantic>)
    returns (decisions: seq<RetirementDecision>)
    requires AllSemantic(atoms)
    requires forall i, j :: 0 <= i < j < |candidates| ==> candidates[i].atomId < candidates[j].atomId
    ensures decisions == DecideAll(candidates, winners, atoms)
  {
    hide Decide, SemanticIdsFor, Lookup, Indexes, AllSemantic;
    var winnerSet := AsSet(winners);
    var sources := IndexSources(atoms);
    FullIndexAnswers(sources, atoms, candidates);
    decisions := [];
    for i := 0 to |candidates|
      invariant |decisions| == i
      invariant forall k :: 0 <= k < i ==>
        decisions[k] == Decide(candidates[k], winnerSet, SemanticIdsFor(atoms, candidates[k].atomId))
      invariant Answers(sources, atoms, candidates, i)
    {
      var id := candidates[i].atomId;
      decisions := decisions + [Decide(candidates[i], winnerSet, Lookup(sources, id))];
      TakingKeepsRest(sources, atoms, candidates, i);
      sources := sources - {id};
    }
  }

  // ---------- the projected state ----------

  function ProjectSource(candidate: RetirementCandidate, decision: RetirementDecision, env: Environment):
    Result<PostStateAtom>
  {
    var body :- candidate.body.OkOr(AtomDigestMismatch(candidate.atomId));
    var bytes :- AtomBytes(body);
    var _ :- Need(|bytes| < TWO64, CanonicalEncoding);
    var exact := decision.exactRetained;
    Ok(PostStateAtom(
      atomId := candidate.atomId,
      kind := EpisodeKind,
      repositoryId := body.scope.repositoryId,
      taskId := body.scope.taskId,
      agentId := body.scope.agentId,
      sessionId := Some(body.scope.sessionId),
      recordedAtUs := body.interval.recordedAtUs,
      headerBodyDigest := candidate.bodyDigest,
      headerBodyBytes := |bytes|,
      retentionPermission := body.retentionPermission,
      provenanceDigest := env.provenanceDigest(body.provenance),
      storedBodyDigest := if exact then Some(candidate.bodyDigest) else None,
      retentionTier := if exact then EpisodicLongTerm else HeaderOnly,
      contentStatus := if exact then Present else Forgotten,
      expiresAtUs := None,
      supersededBy := None,
      feedbackPositive := candidate.state.feedbackPositive,
      feedbackNegative := candidate.state.feedbackNegative,
      retrievalCount := candidate.state.retrievalCount,
      retirementRunBound := true,
      searchProjectionPresent := exact,
      pinnedArtifactDigests := decision.exactArtifactDigests))
  }

  function ProjectSemantic(semantic: PlannedSemantic, env: Environment): PostStateAtom {
    var body := semantic.body;
    PostStateAtom(
      atomId := semantic.atomId,
      kind := SemanticKind,
      repositoryId := body.scope.repositoryId,
      taskId := body.scope.taskId,
      agentId := body.scope.agentId,
      sessionId := Some(body.scope.sessionId),
      recordedAtUs := body.interval.recordedAtUs,
      headerBodyDigest := semantic.bodyDigest,
      headerBodyBytes := semantic.canonicalSizeBytes,
      retentionPermission := body.retentionPermission,
      provenanceDigest := env.provenanceDigest(body.provenance),
      storedBodyDigest := Some(semantic.bodyDigest),
      retentionTier := SemanticLongTerm,
      contentStatus := Present,
      expiresAtUs := None,
      supersededBy := None,
      feedbackPositive := 0,
      feedbackNegative := 0,
      retrievalCount := 0,
      retirementRunBound := false,
      searchProjectionPresent := true,
      pinnedArtifactDigests := [])
  }

  function ProjectSources(candidates: seq<RetirementCandidate>, decisions: seq<RetirementDecision>, env: Environment):
    Result<seq<PostStateAtom>>
    requires |candidates| == |decisions|
  {
    if candidates == [] then Ok([])
    else
      var first :- ProjectSource(candidates[0], decisions[0], env);
      var rest :- ProjectSources(candidates[1..], decisions[1..], env);
      Ok([first] + rest)
  }

  function ProjectPostState(memorySpaceId: Text, candidates: seq<RetirementCandidate>,
      decisions: seq<RetirementDecision>, atoms: seq<PlannedSemantic>, env: Environment): Result<PostState>
    requires |candidates| == |decisions|
  {
    var sources :- ProjectSources(candidates, decisions, env);
    Ok(PostState(memorySpaceId, sources, Map((s: PlannedSemantic) => ProjectSemantic(s, env), atoms)))
  }

  // ---------- the planner ----------

  function InputOf(c: RetirementCandidate): InputMember {
    InputMember(c.atomId, c.bodyDigest, c.state, c.integrity, c.exactPackageBytes)
  }

  function InputDigest(candidates: seq<RetirementCandidate>, snapshot: RetirementSnapshot, env: Environment): Digest {
    env.inputDigest(InputAuthority(snapshot.contractVersion, snapshot.memorySpaceId, snapshot.cohortDay,
      snapshot.asOfUs, Map(InputOf, candidates)))
  }

  function PopulationDigest(candidates: seq<RetirementCandidate>, population: seq<nat>, env: Environment): Digest
    requires IndicesOf(candidates, population)
  {
    env.populationDigest(Map(PopulationEvidence, Pick(candidates, population)))
  }

  function Assemble(candidates: seq<RetirementCandidate>, header: RetirementSnapshot, policy: Policy, seed: Seed,
      env: Environment, selection: Selection, draw: Draw, decisions: seq<RetirementDecision>,
      post: PostState): RetirementPlan
    requires IndicesOf(candidates, draw.population)
  {
    RetirementPlan(
      contractVersion := PLAN_VERSION,
      policyId := policy.policyId,
      policyDigest := env.authority.policyDigest,
      seed := seed,
      memorySpaceId := header.memorySpaceId,
      cohortDay := header.cohortDay,
      asOfUs := header.asOfUs,
      inputSetDigest := InputDigest(candidates, header, env),
      rngIdentifier := RNG_IDENTIFIER,
      episodicPopulationDigest := PopulationDigest(candidates, draw.population, env),
      episodicPopulationCount := |draw.population|,
      episodicWinnerBudget := draw.budget,
      episodicWinnerBytes := draw.bytes,
      semanticCountBudget := SemanticCountBudget(|candidates|, policy),
      semanticBodyBytes := selection.bytes,
      semanticDecisions := selection.decisions,
      semanticAtoms := selection.atoms,
      episodicWinners := draw.winners,
      decisions := decisions,
      projectedPostState := post,
      projectedStateDigest := env.stateDigest(post))
  }

  /** Everything after validation, on the ordered candidates. */
  ghost function PlanOrdered(candidates: seq<RetirementCandidate>, header: RetirementSnapshot, policy: Policy,
      seed: Seed, env: Environment): Result<RetirementPlan>
    requires Live(env.stream(seed)) && |candidates| < TWO64 && policy.consensusDenominator > 0
  {
    var scored :- SemanticCandidates(candidates, header, policy, env.authority);
    var selection :- SelectFrom(scored, SemanticCountBudget(|candidates|, policy), NOTHING, policy);
    SelectedAreSemantic(scored, SemanticCountBudget(|candidates|, policy), NOTHING, policy);
    var draw :- DrawWinners(candidates, env.stream(seed), policy);
    var decisions := DecideAll(candidates, draw.winners, selection.atoms);
    var post :- ProjectPostState(header.memorySpaceId, candidates, decisions, selection.atoms, env);
    Ok(Assemble(candidates, header, policy, seed, env, selection, draw, decisions, post))
  }

  /** `plan_retirement`. */
  ghost function PlanRetirement(snapshot: RetirementSnapshot, policy: Policy, seed: Seed, env: Environment):
    Result<RetirementPlan>
    requires Live(env.stream(seed))
  {
    var _ :- Admit(snapshot, policy, env);
    AdmittedIsSmall(snapshot, policy, env);
    PlanOrdered(Ordered(snapshot.atoms), Header(snapshot), policy, seed, env)
  }

  method RunPlanRetirement(snapshot: RetirementSnapshot, policy: Policy, seed: Seed, env: Environment)
    returns (r: Result<RetirementPlan>)
    requires Live(env.stream(seed))
    ensures r == PlanRetirement(snapshot, policy, seed, env)
  {
    hide CheckSnapshot, CheckCandidates, ConsiderAll, CompleteLink, SelectFrom, DrawWinners, ProjectPostState, Linked,
      CheckCandidate, IndicesOf;
    if policy != POC_V1 {
      return Err(PolicyMismatch);
    }
    var checked := CheckSnapshot(snapshot, policy);
    if checked.Err? {
      return Err(checked.error);
    }
    var candidates := SortBy(CandidateLeq, snapshot.atoms);
    var header := Header(snapshot);
    var validated := ValidateCandidates(candidates, header, policy, env.authority);
    if validated.Err? {
      return Err(validated.error);
    }
    AdmittedAreOrdered(snapshot, policy, env);
    AdmittedIsSmall(snapshot, policy, env);
    var eligible := PermittedIndices(candidates, Consolidates);
    var clusters := CompleteLinkClusters(Linked(candidates, policy), eligible);
    assert clusters == Clusters(candidates, policy);
    PermittedAreExact(candidates, KeepsExact);
    var found := CollectSemanticCandidates(candidates, clusters, header, env.authority, policy);
    if found.Err? {
      return Err(found.error);
    }
    var countBudget := SemanticCountBudget(|candidates|, policy);
    var scored := SortBy(ScoredLeq, found.value);
    var selected := SelectGreedily(scored, countBudget, policy);
    if selected.Err? {
      return Err(selected.error);
    }
    var selection := selected.value;
    SelectedAreSemantic(scored, countBudget, NOTHING, policy);
    var drawn := RunDraw(candidates, env.stream(seed), policy);
    if drawn.Err? {
      return Err(drawn.error);
    }
    var draw := drawn.value;
    var decisions := MakeDecisions(candidates, draw.winners, selection.atoms);
    var post := ProjectPostState(header.memorySpaceId, candidates, decisions, selection.atoms, env);
    if post.Err? {
      return Err(post.error);
    }
    r := Ok(Assemble(candidates, header, policy, seed, env, selection, draw, decisions, post.value));
  }
}
