/** A plan accounts for every candidate exactly once, and carries over what it must not change. */
module PlanConservation {
  import opened Wrappers
  import opened Numbers
  import opened Sequences
  import opened Digests
  import opened Model
  import opened Validation
  import opened Lottery
  import opened Consolidation
  import opened Plans
  import opened Cohort
  import opened SemanticSelection
  import opened EpisodicDraw
  import opened Retirement
  import opened AdmittedCohorts
  import opened GreedyBudgets
  import opened PlanOutcomes

  /** Some selected semantic atom of this address was consolidated from the source. */
  ghost predicate NamedBy(atoms: seq<PlannedSemantic>, source: AtomId, id: AtomId) {
    exists k :: 0 <= k < |atoms| && atoms[k].atomId == id
             && atoms[k].body.payload.Semantic? && source in atoms[k].body.payload.sourceIds
  }

  lemma {:induction false} MentionsIff(sources: seq<AtomId>, source: AtomId, atomId: AtomId, id: AtomId)
    ensures id in Mentions(sources, source, atomId) <==> id == atomId && source in sources
  {
    if sources != [] {
      var n := |sources| - 1;
      MentionsIff(sources[..n], source, atomId, id);
      assert sources == sources[..n] + [sources[n]];
    }
  }

  lemma {:induction false} SemanticIdsIff(atoms: seq<PlannedSemantic>, source: AtomId, id: AtomId)
    requires AllSemantic(atoms)
    ensures id in SemanticIdsFor(atoms, source) <==> NamedBy(atoms, source, id)
  {
    if atoms != [] {
      var n := |atoms| - 1;
      SemanticIdsIff(atoms[..n], source, id);
      MentionsIff(atoms[n].body.payload.sourceIds, source, atoms[n].atomId, id);
      NamedByLast(atoms, source, id);
    }
  }

  lemma {:induction false} NamedByLast(atoms: seq<PlannedSemantic>, source: AtomId, id: AtomId)
    requires atoms != []
    ensures NamedBy(atoms, source, id) <==>
      || NamedBy(atoms[..|atoms| - 1], source, id)
      || (atoms[|atoms| - 1].atomId == id && atoms[|atoms| - 1].body.payload.Semantic?
          && source in atoms[|atoms| - 1].body.payload.sourceIds)
  {
    var n := |atoms| - 1;
    assert forall k :: 0 <= k < n ==> atoms[..n][k] == atoms[k];
    if NamedBy(atoms[..n], source, id) {
      var k :| 0 <= k < n && atoms[..n][k].atomId == id
            && atoms[..n][k].body.payload.Semantic? && source in atoms[..n][k].body.payload.sourceIds;
      assert atoms[k].atomId == id;
    }
  }

  /** What the plan decides about a candidate: it is kept exactly if and only if it won the draw,
      its body is forgotten otherwise, and it is linked to every semantic atom made from it. */
  ghost predicate Decided(c: RetirementCandidate, d: RetirementDecision, plan: RetirementPlan) {
    && d.atomId == c.atomId
    && (d.exactRetained <==> c.atomId in plan.episodicWinners)
    && (d.forgetEpisodeBody <==> c.atomId !in plan.episodicWinners)
    && (forall id: AtomId :: id in d.semanticAtomIds <==> NamedBy(plan.semanticAtoms, c.atomId, id))
    && (d.exactRetained ==> c.body.Some? && forall x: Digest :: x in d.exactArtifactDigests <==>
         exists a :: a in c.body.value.artifacts && a.retentionAllowed && a.digest == x)
    && (!d.exactRetained ==> d.exactArtifactDigests == [])
  }

  /** What the projected state keeps of a candidate: its scope, time, permission and counters. */
  ghost predicate Conserved(c: RetirementCandidate, state: PostStateAtom, plan: RetirementPlan) {
    && c.body.Some? && state.sessionId.Some?
    && state.atomId == state.headerBodyDigest == c.atomId
    && MemoryScope(plan.memorySpaceId, state.repositoryId, state.taskId, state.agentId, state.sessionId.value) ==
         c.body.value.scope
    && state.recordedAtUs == c.body.value.interval.recordedAtUs
    && state.retentionPermission == c.body.value.retentionPermission
    && EncodedSizeBytes(c.body.value) == Ok(state.headerBodyBytes)
    && state.feedbackPositive == c.state.feedbackPositive
    && state.feedbackNegative == c.state.feedbackNegative
    && state.retrievalCount == c.state.retrievalCount
    && state.storedBodyDigest == (if c.atomId in plan.episodicWinners then Some(c.atomId) else None)
  }

  lemma {:induction false} RetainedDigestsIff(body: MemoryAtomBody, x: Digest)
    ensures x in RetainedArtifactDigests(body) <==>
      exists a :: a in body.artifacts && a.retentionAllowed && a.digest == x
  {
    FilterMapMembers(RetainedDigest, body.artifacts);
    if a :| a in body.artifacts && a.retentionAllowed && a.digest == x {
      var i :| 0 <= i < |body.artifacts| && body.artifacts[i] == a;
      assert RetainedDigest(body.artifacts[i]) == Some(x);
    }
    if x in FilterMap(RetainedDigest, body.artifacts) {
      var i :| 0 <= i < |body.artifacts| && RetainedDigest(body.artifacts[i]) == Some(x);
      assert body.artifacts[i] in body.artifacts;
    }
  }

  lemma {:induction false} DecideIsDecided(c: RetirementCandidate, plan: RetirementPlan)
    requires c.body.Some? && c.body.value.payload.Episode? && AllSemantic(plan.semanticAtoms)
    ensures Decided(c, Decide(c, AsSet(plan.episodicWinners), SemanticIdsFor(plan.semanticAtoms, c.atomId)), plan)
  {
    hide SemanticIdsFor, NamedBy, RetainedArtifactDigests, SortBy;
    var ids := SemanticIdsFor(plan.semanticAtoms, c.atomId);
    MembersOfMultiset(ids, SortBy(DigestLeq, ids));
    forall id: AtomId ensures id in ids <==> NamedBy(plan.semanticAtoms, c.atomId, id) {
      SemanticIdsIff(plan.semanticAtoms, c.atomId, id);
    }
    forall x: Digest ensures x in RetainedArtifactDigests(c.body.value) <==>
      exists a :: a in c.body.value.artifacts && a.retentionAllowed && a.digest == x
    {
      RetainedDigestsIff(c.body.value, x);
    }
  }

  lemma {:induction false} ProjectionConserves(c: RetirementCandidate, d: RetirementDecision, plan: RetirementPlan,
      header: RetirementSnapshot, env: Environment)
    requires SoundCandidate(c, header, env.authority) && plan.memorySpaceId == header.memorySpaceId
    requires d.exactRetained <==> c.atomId in plan.episodicWinners
    requires ProjectSource(c, d, env).Ok?
    ensures Conserved(c, ProjectSource(c, d, env).value, plan)
  {
    hide AtomIdOf;
    SizeOfBytes(c.body.value);
    hide AtomBytes, EncodedSizeBytes;
  }

  lemma {:induction false} SizeOfBytes(body: MemoryAtomBody)
    requires AtomBytes(body).Ok? && |AtomBytes(body).value| < TWO64
    ensures EncodedSizeBytes(body) == Ok(|AtomBytes(body).value|)
  {
  }

  /** Every candidate of the snapshot is decided and projected exactly once, and every decision
      and projected source state belongs to a candidate. */
  lemma {:induction false} PlansConserve(snapshot: RetirementSnapshot, policy: Policy, seed: Seed, env: Environment)
    requires Live(env.stream(seed)) && PlanRetirement(snapshot, policy, seed, env).Ok?
    ensures var plan := PlanRetirement(snapshot, policy, seed, env).value;
      var cs := Ordered(snapshot.atoms);
      && multiset(cs) == multiset(snapshot.atoms)
      && |plan.decisions| == |plan.projectedPostState.sourceAtoms| == |cs|
      && (forall i :: 0 <= i < |cs| ==> Decided(cs[i], plan.decisions[i], plan))
      && (forall i :: 0 <= i < |cs| ==> Conserved(cs[i], plan.projectedPostState.sourceAtoms[i], plan))
  {
    hide PlanRetirement, SoundCohort, Clusters, Qualifying, AllScored, AllScoredSemantic, DrawWinners, DecideAll,
      ProjectSources, SelectFrom, SortBy, Explained, AllSemantic, InputDigest, PopulationDigest, SemanticCountBudget,
      AllFit, Live, Decide, Decided, Conserved, SoundCandidate, ProjectSource, ProjectSemantic, SemanticIdsFor,
      IndicesOf;
    var scored, selection, draw, post := PlanParts(snapshot, policy, seed, env);
    var cs, header := Ordered(snapshot.atoms), Header(snapshot);
    var plan := PlanRetirement(snapshot, policy, seed, env).value;
    SoundOneByOne(cs, header, env.authority);
    ProjectionSucceeds(cs, plan.decisions, header, env);
    forall i | 0 <= i < |cs| ensures Decided(cs[i], plan.decisions[i], plan)
      && Conserved(cs[i], plan.projectedPostState.sourceAtoms[i], plan)
    {
      SoundEpisode(cs[i], header, env.authority);
      DecideIsDecided(cs[i], plan);
      DecidedWinners(cs[i], plan.decisions[i], plan);
      ProjectionConserves(cs[i], plan.decisions[i], plan, header, env);
    }
  }

  lemma {:induction false} SoundEpisode(c: RetirementCandidate, header: RetirementSnapshot, authority: Authority)
    requires SoundCandidate(c, header, authority)
    ensures c.body.Some? && c.body.value.payload.Episode?
  {
    hide AtomIdOf, AtomBytes;
  }

  lemma {:induction false} DecidedWinners(c: RetirementCandidate, d: RetirementDecision, plan: RetirementPlan)
    requires Decided(c, d, plan)
    ensures d.exactRetained <==> c.atomId in plan.episodicWinners
  {
  }
}
