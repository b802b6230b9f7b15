/** The independent structural check of a retirement plan. It re-derives budgets, order,
    dispositions and the projected state from the plan alone. */
module PlanStructure {
  import opened Wrappers
  import opened Numbers
  import opened Sequences
  import opened Fixed
  import opened Digests
  import opened Model
  import opened Validation
  import opened Plans
  import opened Retirement

  // ---------- the projected state ----------

  predicate SourceCloses(state: PostStateAtom, decision: RetirementDecision, policy: Policy) {
    var exact := decision.exactRetained;
    && state.atomId == decision.atomId
    && state.kind == EpisodeKind
    && state.sessionId.Some? && state.sessionId.value != []
    && state.headerBodyDigest == decision.atomId
    && 0 < state.headerBodyBytes <= policy.atomHardMaxBytes
    && state.storedBodyDigest == (if exact then Some(decision.atomId) else None)
    && state.retentionTier == (if exact then EpisodicLongTerm else HeaderOnly)
    && state.contentStatus == (if exact then Present else Forgotten)
    && state.expiresAtUs.None? && state.supersededBy.None?
    && state.retirementRunBound
    && state.searchProjectionPresent == exact
    && state.pinnedArtifactDigests == decision.exactArtifactDigests
    && decision.forgetEpisodeBody != exact
    && (exact ==> state.retentionPermission == SemanticAndExactAllowed)
  }

  predicate SemanticCloses(state: PostStateAtom, semantic: PlannedSemantic, env: Environment) {
    var body := semantic.body;
    && state.atomId == semantic.atomId
    && state.kind == SemanticKind
    && state.repositoryId == body.scope.repositoryId
    && state.taskId == body.scope.taskId
    && state.agentId == body.scope.agentId
    && state.sessionId == Some(body.scope.sessionId)
    && state.recordedAtUs == body.interval.recordedAtUs
    && state.headerBodyDigest == semantic.bodyDigest
    && state.headerBodyBytes == semantic.canonicalSizeBytes
    && state.retentionPermission == body.retentionPermission
    && state.provenanceDigest == env.provenanceDigest(body.provenance)
    && state.storedBodyDigest == Some(semantic.bodyDigest)
    && state.retentionTier == SemanticLongTerm
    && state.contentStatus == Present
    && state.expiresAtUs.None? && state.supersededBy.None?
    && state.feedbackPositive == 0 && state.feedbackNegative == 0 && state.retrievalCount == 0
    && !state.retirementRunBound
    && state.searchProjectionPresent
    && state.pinnedArtifactDigests == []
  }

  function VerifyPostState(plan: RetirementPlan, policy: Policy, env: Environment): Result<()> {
    var post := plan.projectedPostState;
    var _ :- Need(post.memorySpaceId == plan.memorySpaceId && |post.sourceAtoms| == |plan.decisions|
              && |post.semanticAtoms| == |plan.semanticAtoms|, ReceiptRejected);
    var _ :- Need(forall i :: 0 <= i < |plan.decisions| ==>
                    SourceCloses(post.sourceAtoms[i], plan.decisions[i], policy), ReceiptRejected);
    var _ :- Need(forall i :: 0 <= i < |plan.semanticAtoms| ==>
                    SemanticCloses(post.semanticAtoms[i], plan.semanticAtoms[i], env), ReceiptRejected);
    Ok(())
  }

  // ---------- semantic atoms ----------

  function CheckSemanticAtom(semantic: PlannedSemantic, policy: Policy, authority: Authority): Result<()> {
    var _ :- ValidateMemoryAtomBody(semantic.body, policy, authority);
    var _ :- Need(semantic.body.contractVersion == Ascii("atom-v1"), ReceiptRejected);
    var id :- AtomIdOf(semantic.body, authority.hash);
    var _ :- Need(id == semantic.atomId && semantic.bodyDigest == semantic.atomId, ReceiptRejected);
    var size :- EncodedSizeBytes(semantic.body);
    Need(size == semantic.canonicalSizeBytes, ReceiptRejected)
  }

  function CheckSemanticAtoms(atoms: seq<PlannedSemantic>, seen: set<AtomId>, policy: Policy, authority: Authority):
    Result<()>
  {
    if atoms == [] then Ok(())
    else
      var _ :- Need(atoms[0].atomId !in seen, ReceiptRejected);
      var _ :- CheckSemanticAtom(atoms[0], policy, authority);
      CheckSemanticAtoms(atoms[1..], seen + {atoms[0].atomId}, policy, authority)
  }

  method EnsureSemanticAtoms(atoms: seq<PlannedSemantic>, policy: Policy, authority: Authority) returns (r: Result<()>)
    ensures r == CheckSemanticAtoms(atoms, {}, policy, authority)
  {
    hide CheckSemanticAtom;
    var ids: set<AtomId> := {};
    for i := 0 to |atoms|
      invariant CheckSemanticAtoms(atoms, {}, policy, authority) ==
        CheckSemanticAtoms(atoms[i..], ids, policy, authority)
    {
      assert atoms[i..][1..] == atoms[i + 1..];
      if atoms[i].atomId in ids {
        return Err(ReceiptRejected);
      }
      var one := CheckSemanticAtom(atoms[i], policy, authority);
      if one.Err? {
        return one;
      }
      ids := ids + {atoms[i].atomId};
    }
    r := Ok(());
  }

  // ---------- semantic evidence ----------

  predicate Adjacent(ids: seq<AtomId>) {
    forall i :: 0 <= i < |ids| - 1 ==> ids[i] < ids[i + 1]
  }

  function CheckCandidateIds(decisions: seq<SemanticDecision>, seen: set<AtomId>, policy: Policy): Result<()> {
    if decisions == [] then Ok(())
    else
      var _ :- Need(decisions[0].atomId !in seen, ReceiptRejected);
      var _ :- Need(|decisions[0].sourceIds| >= policy.minSemanticSources && Adjacent(decisions[0].sourceIds),
        ReceiptRejected);
      CheckCandidateIds(decisions[1..], seen + {decisions[0].atomId}, policy)
  }

  predicate InScoreOrder(a: SemanticDecision, b: SemanticDecision) {
    a.score.total > b.score.total || (a.score.total == b.score.total && a.atomId < b.atomId)
  }

  /** `expected_semantic_disposition`: the addition first, then the limits. */
  function ExpectedDisposition(candidateBytes: u64, selectedCount: nat, selectedBytes: u64, countBudget: nat,
      policy: Policy):
    Result<(Disposition, u64)>
  {
    var next :- CheckedAdd(selectedBytes, candidateBytes).OkOr(ReceiptRejected);
    Ok((
      if candidateBytes > policy.atomHardMaxBytes then SkippedAtomHardLimit
      else if selectedCount >= countBudget then SkippedCountBudget
      else if next > policy.semanticBodyBudgetBytes then SkippedByteBudget
      else Selected, next))
  }

  predicate Matches(semantic: PlannedSemantic, decision: SemanticDecision) {
    && semantic.body.payload.Semantic?
    && semantic.atomId == decision.atomId
    && semantic.canonicalSizeBytes == decision.canonicalSizeBytes
    && semantic.body.payload.sourceIds == decision.sourceIds
    && semantic.body.payload.score == decision.score
  }

  /** The replay of the decisions from a given count, byte total and position among the atoms.
      The count and the position advance together. */
  function Replay(decisions: seq<SemanticDecision>, atoms: seq<PlannedSemantic>, countBudget: nat, selected: nat,
      selectedBytes: u64, policy: Policy): Result<()>
  {
    if decisions == [] then Need(selected == |atoms|, ReceiptRejected)
    else
      var d := decisions[0];
      var expected :- ExpectedDisposition(d.canonicalSizeBytes, selected, selectedBytes, countBudget, policy);
      var _ :- Need(d.disposition == expected.0, ReceiptRejected);
      if expected.0 != Selected then Replay(decisions[1..], atoms, countBudget, selected, selectedBytes, policy)
      else
        var _ :- Need(selected < |atoms| && Matches(atoms[selected], d), ReceiptRejected);
        Replay(decisions[1..], atoms, countBudget, selected + 1, expected.1, policy)
  }

  function CheckSemanticEvidence(decisions: seq<SemanticDecision>, atoms: seq<PlannedSemantic>, countBudget: nat,
      policy: Policy, authority: Authority): Result<()>
  {
    var _ :- CheckSemanticAtoms(atoms, {}, policy, authority);
    var _ :- CheckCandidateIds(decisions, {}, policy);
    var _ :- Need(forall i :: 0 <= i < |decisions| - 1 ==> InScoreOrder(decisions[i], decisions[i + 1]),
      ReceiptRejected);
    Replay(decisions, atoms, countBudget, 0, 0, policy)
  }

  /** `ensure_semantic_evidence`, with its three counters. */
  method EnsureSemanticEvidence(decisions: seq<SemanticDecision>, atoms: seq<PlannedSemantic>, countBudget: nat,
      policy: Policy, authority: Authority) returns (r: Result<()>)
    ensures r == CheckSemanticEvidence(decisions, atoms, countBudget, policy, authority)
  {
    hide CheckSemanticAtoms, ExpectedDisposition, Matches;
    var checked := EnsureSemanticAtoms(atoms, policy, authority);
    if checked.Err? {
      return checked;
    }
    var ids := EnsureCandidateIds(decisions, policy);
    if ids.Err? {
      return ids;
    }
    if exists i :: 0 <= i < |decisions| - 1 && !InScoreOrder(decisions[i], decisions[i + 1]) {
      return Err(ReceiptRejected);
    }
    var selectedCount: nat, selectedBytes: u64, selectedIndex: nat := 0, 0, 0;
    for i := 0 to |decisions|
      invariant selectedIndex == selectedCount
      invariant Replay(decisions, atoms, countBudget, 0, 0, policy) ==
        Replay(decisions[i..], atoms, countBudget, selectedCount, selectedBytes, policy)
    {
      assert decisions[i..][1..] == decisions[i + 1..];
      var d := decisions[i];
      var expected := ExpectedDisposition(d.canonicalSizeBytes, selectedCount, selectedBytes, countBudget, policy);
      if expected.Err? {
        return Err(expected.error);
      }
      if d.disposition != expected.value.0 {
        return Err(ReceiptRejected);
      }
      if expected.value.0 == Selected {
        if selectedIndex >= |atoms| || !Matches(atoms[selectedIndex], d) {
          return Err(ReceiptRejected);
        }
        selectedCount, selectedBytes, selectedIndex := selectedCount + 1, expected.value.1, selectedIndex + 1;
      }
    }
    r := Need(selectedIndex == |atoms|, ReceiptRejected);
  }

  method EnsureCandidateIds(decisions: seq<SemanticDecision>, policy: Policy) returns (r: Result<()>)
    ensures r == CheckCandidateIds(decisions, {}, policy)
  {
    hide Adjacent;
    var ids: set<AtomId> := {};
    for i := 0 to |decisions|
      invariant CheckCandidateIds(decisions, {}, policy) == CheckCandidateIds(decisions[i..], ids, policy)
    {
      assert decisions[i..][1..] == decisions[i + 1..];
      if decisions[i].atomId in ids {
        return Err(ReceiptRejected);
      }
      ids := ids + {decisions[i].atomId};
      if |decisions[i].sourceIds| < policy.minSemanticSources || !Adjacent(decisions[i].sourceIds) {
        return Err(ReceiptRejected);
      }
    }
    r := Ok(());
  }

  // ---------- the whole check ----------

  function SemanticBytesTotal(atoms: seq<PlannedSemantic>): Result<u64> {
    if atoms == [] then Ok(0)
    else
      var total :- SemanticBytesTotal(atoms[..|atoms| - 1]);
      CheckedAdd(total, atoms[|atoms| - 1].canonicalSizeBytes).OkOr(ReceiptRejected)
  }

  function RetainedIds(decisions: seq<RetirementDecision>): set<AtomId> {
    set d | d in decisions && d.exactRetained :: d.atomId
  }

  function CheckBudgets(plan: RetirementPlan, policy: Policy): Result<()> {
    var _ :- Need(Adjacent(plan.episodicWinners), ReceiptRejected);
    var total :- SemanticBytesTotal(plan.semanticAtoms);
    Need(
      && AsSet(plan.episodicWinners) == RetainedIds(plan.decisions)
      && plan.episodicWinnerBudget ==
           Min(CeilCount(policy.episodicRate, plan.episodicPopulationCount), policy.episodicCountMax)
      && |plan.episodicWinners| == plan.episodicWinnerBudget
      && plan.semanticCountBudget == Min(CeilCount(policy.semanticRate, |plan.decisions|), policy.semanticCountMax)
      && plan.semanticBodyBytes == total
      && plan.episodicWinnerBytes <= policy.episodicPinBudgetBytes, ReceiptRejected)
  }

  /** `verify_plan_structure`. */
  function VerifyPlanStructure(plan: RetirementPlan, env: Environment): Result<()> {
    var _ :- Need(plan.contractVersion == Ascii("retirement-plan-v1"), UnknownVersion);
    var _ :- Need(plan.policyId == Ascii("poc-v1"), PolicyMismatch);
    var _ :- Need(plan.policyDigest == env.authority.policyDigest && plan.rngIdentifier == RNG_IDENTIFIER,
      PolicyMismatch);
    var _ :- VerifyPostState(plan, POC_V1, env);
    var _ :- Need(env.stateDigest(plan.projectedPostState) == plan.projectedStateDigest, ReceiptRejected);
    var _ :- Need(forall i :: 0 <= i < |plan.decisions| - 1 ==> plan.decisions[i].atomId < plan.decisions[i + 1].atomId,
                  ReceiptRejected);
    var _ :- CheckSemanticEvidence(plan.semanticDecisions, plan.semanticAtoms, plan.semanticCountBudget, POC_V1,
      env.authority);
    CheckBudgets(plan, POC_V1)
  }
}
