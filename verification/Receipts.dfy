/** Receipts: applying a plan through a repository, and verifying a receipt by planning again. */
module Receipts {
  import opened Wrappers
  import opened Numbers
  import opened Sequences
  import opened Digests
  import opened Model
  import opened Validation
  import opened Lottery
  import opened Plans
  import opened Cohort
  import opened EpisodicDraw
  import opened SemanticSelection
  import opened Retirement
  import opened Consolidation
  import opened AdmittedCohorts
  import opened GreedyBudgets
  import opened PlanOutcomes
  import opened PlanStructure
  import opened PlanAcceptance

  datatype InvariantStatus = Verified | Rejected | Inconclusive
  datatype OverallStatus = Passed | Failed | Unclear | Invalid

  type ArtifactMap = map<AtomId, seq<Digest>>

  datatype ReceiptClosure = ReceiptClosure(
    sourceAtomIds: seq<AtomId>, semanticAtomIds: seq<AtomId>, exactEpisodeIds: seq<AtomId>,
    exactArtifactDigests: ArtifactMap)

  datatype ProofReceipt = ProofReceipt(
    contractVersion: Text,
    receiptId: Digest,
    runId: Digest,
    memorySpaceId: Text,
    cohortDay: u64,
    asOfUs: u64,
    policyId: Text,
    policyDigest: Digest,
    seed: Seed,
    inputSetDigest: Digest,
    rngIdentifier: Text,
    populationDigest: Digest,
    episodicPopulationCount: nat,
    episodicWinnerBudget: nat,
    episodicWinnerBytes: u64,
    semanticCountBudget: nat,
    semanticBodyBytes: u64,
    planDigest: Digest,
    decisionDigest: Digest,
    stateDigest: Digest,
    closure: ReceiptClosure,
    invariants: map<Text, InvariantStatus>,
    overallStatus: OverallStatus)

  /** The digests of plans, decisions, runs and receipts. The receipt digest covers every field
      but the receipt's own id, so it is applied to a receipt with the id blanked. */
  datatype ReceiptDigests = ReceiptDigests(
    plan: RetirementPlan -> Digest,
    decisions: seq<RetirementDecision> -> Digest,
    run: Digest -> Digest,
    receipt: ProofReceipt -> Digest)

  function RecomputeReceiptId(receipt: ProofReceipt, digests: ReceiptDigests): Digest {
    digests.receipt(receipt.(receiptId := 0))
  }

  datatype ApplyOutcome = ApplyOutcome(
    observedInputDigest: Digest,
    stateDigest: Digest,
    appliedDecisionCount: nat,
    semanticAtomIds: seq<AtomId>,
    episodicAtomIds: seq<AtomId>,
    exactArtifactDigests: ArtifactMap,
    alreadyApplied: bool)

  /** The atomic boundary to the store: it answers each plan as it sees fit, given its history. */
  class Repository {
    const respond: (seq<RetirementPlan>, RetirementPlan) -> Result<ApplyOutcome>
    var requests: seq<RetirementPlan>

    constructor (respond: (seq<RetirementPlan>, RetirementPlan) -> Result<ApplyOutcome>)
      ensures this.respond == respond && requests == []
    {
      this.respond := respond;
      requests := [];
    }

    method ApplyPlanAtomically(plan: RetirementPlan) returns (r: Result<ApplyOutcome>)
      modifies this`requests
      ensures requests == old(requests) + [plan] && r == respond(old(requests), plan)
    {
      r := respond(requests, plan);
      requests := requests + [plan];
    }
  }

  // ---------- closures ----------

  /** Collects the digests of the retained decisions; a later decision replaces an earlier one. */
  function RetainedArtifacts(decisions: seq<RetirementDecision>): ArtifactMap {
    if decisions == [] then map[]
    else
      var last := decisions[|decisions| - 1];
      var rest := RetainedArtifacts(decisions[..|decisions| - 1]);
      if last.exactRetained then rest[last.atomId := last.exactArtifactDigests] else rest
  }

  function ClosureOf(plan: RetirementPlan): ReceiptClosure {
    ReceiptClosure(
      Map((d: RetirementDecision) => d.atomId, plan.decisions),
      Map((s: PlannedSemantic) => s.atomId, plan.semanticAtoms),
      plan.episodicWinners,
      RetainedArtifacts(plan.decisions))
  }

  function Normalized(artifacts: ArtifactMap): ArtifactMap {
    map id | id in artifacts :: SortDedup(artifacts[id])
  }

  /** Sorts and deduplicates every list in place. */
  method NormalizeArtifacts(artifacts: ArtifactMap) returns (r: ArtifactMap)
    ensures r == Normalized(artifacts)
  {
    r := artifacts;
    var remaining := artifacts.Keys;
    while remaining != {}
      invariant remaining <= artifacts.Keys == r.Keys
      invariant forall id :: id in artifacts ==>
        r[id] == if id in remaining then artifacts[id] else SortDedup(artifacts[id])
      decreases |remaining|
    {
      var id :| id in remaining;
      r := r[id := SortDedup(r[id])];
      remaining := remaining - {id};
    }
  }

  function InvariantMap(): map<Text, InvariantStatus> {
    map[
      Ascii("budgets_structurally_bounded") := Verified,
      Ascii("plan_structure_verified") := Verified,
      Ascii("repository_outcome_closure_verified") := Verified]
  }

  // ---------- issuing ----------

  /** The receipt without its id. */
  function BlankReceipt(plan: RetirementPlan, stateDigest: Digest, digests: ReceiptDigests): ProofReceipt {
    ProofReceipt(
      contractVersion := Ascii("proof-receipt-v1"),
      receiptId := 0,
      runId := digests.run(digests.plan(plan)),
      memorySpaceId := plan.memorySpaceId,
      cohortDay := plan.cohortDay,
      asOfUs := plan.asOfUs,
      policyId := plan.policyId,
      policyDigest := plan.policyDigest,
      seed := plan.seed,
      inputSetDigest := plan.inputSetDigest,
      rngIdentifier := plan.rngIdentifier,
      populationDigest := plan.episodicPopulationDigest,
      episodicPopulationCount := plan.episodicPopulationCount,
      episodicWinnerBudget := plan.episodicWinnerBudget,
      episodicWinnerBytes := plan.episodicWinnerBytes,
      semanticCountBudget := plan.semanticCountBudget,
      semanticBodyBytes := plan.semanticBodyBytes,
      planDigest := digests.plan(plan),
      decisionDigest := digests.decisions(plan.decisions),
      stateDigest := stateDigest,
      closure := ClosureOf(plan),
      invariants := InvariantMap(),
      overallStatus := Passed)
  }

  function ReceiptFor(plan: RetirementPlan, stateDigest: Digest, digests: ReceiptDigests): ProofReceipt {
    var blank := BlankReceipt(plan, stateDigest, digests);
    blank.(receiptId := RecomputeReceiptId(blank, digests))
  }

  function CheckOutcome(plan: RetirementPlan, outcome: ApplyOutcome): Result<()> {
    var expected := ClosureOf(plan);
    var _ :- Need(outcome.observedInputDigest == plan.inputSetDigest, StalePlan);
    var _ :- Need(outcome.stateDigest == plan.projectedStateDigest, InvalidApplyClosure);
    var _ :- Need(outcome.appliedDecisionCount == |plan.decisions|, InvalidApplyClosure);
    Need(
      && outcome.semanticAtomIds == expected.semanticAtomIds
      && outcome.episodicAtomIds == expected.exactEpisodeIds
      && Normalized(outcome.exactArtifactDigests) == expected.exactArtifactDigests, InvalidApplyClosure)
  }

  function Issue(plan: RetirementPlan, response: Result<ApplyOutcome>, env: Environment, digests: ReceiptDigests):
    Result<ProofReceipt>
  {
    var _ :- VerifyPlanStructure(plan, env);
    var outcome :- response;
    var _ :- CheckOutcome(plan, outcome);
    Ok(ReceiptFor(plan, outcome.stateDigest, digests))
  }

  /** `apply_retirement`: the repository sees the plan exactly when its structure is accepted. */
  method ApplyRetirement(repository: Repository, plan: RetirementPlan, env: Environment, digests: ReceiptDigests)
    returns (r: Result<ProofReceipt>)
    modifies repository`requests
    ensures r == Issue(plan, repository.respond(old(repository.requests), plan), env, digests)
    ensures repository.requests ==
      if VerifyPlanStructure(plan, env).Ok? then old(repository.requests) + [plan] else old(repository.requests)
  {
    hide VerifyPlanStructure, ClosureOf, InvariantMap;
    var structure := VerifyPlanStructure(plan, env);
    if structure.Err? {
      return Err(structure.error);
    }
    var response := repository.ApplyPlanAtomically(plan);
    if response.Err? {
      return Err(response.error);
    }
    var outcome := response.value;
    if outcome.observedInputDigest != plan.inputSetDigest {
      return Err(StalePlan);
    }
    if outcome.stateDigest != plan.projectedStateDigest || outcome.appliedDecisionCount != |plan.decisions| {
      return Err(InvalidApplyClosure);
    }
    var expected := ClosureOf(plan);
    var artifacts := NormalizeArtifacts(outcome.exactArtifactDigests);
    if outcome.semanticAtomIds != expected.semanticAtomIds || outcome.episodicAtomIds != expected.exactEpisodeIds
       || artifacts != expected.exactArtifactDigests
    {
      return Err(InvalidApplyClosure);
    }
    var receipt := BlankReceipt(plan, outcome.stateDigest, digests);
    receipt := receipt.(receiptId := RecomputeReceiptId(receipt, digests));
    r := Ok(receipt);
  }

  // ---------- verifying ----------

  datatype VerificationInputs = VerificationInputs(
    policy: Policy, snapshot: RetirementSnapshot, seed: Seed, observedStateDigest: Digest,
    observedArtifacts: ArtifactMap)

  datatype VerifiedReceipt = VerifiedReceipt(receiptId: Digest, runId: Digest, planDigest: Digest,
    status: InvariantStatus)

  predicate FieldsMatch(receipt: ProofReceipt, plan: RetirementPlan, inputs: VerificationInputs, env: Environment,
      digests: ReceiptDigests)
  {
    && receipt.runId == digests.run(digests.plan(plan))
    && receipt.memorySpaceId == plan.memorySpaceId
    && receipt.cohortDay == plan.cohortDay
    && receipt.asOfUs == plan.asOfUs
    && receipt.policyId == plan.policyId
    && receipt.policyDigest == plan.policyDigest
    && receipt.planDigest == digests.plan(plan)
    && receipt.decisionDigest == digests.decisions(plan.decisions)
    && receipt.policyDigest == env.authority.policyDigest
    && receipt.seed == inputs.seed
    && receipt.inputSetDigest == plan.inputSetDigest
    && receipt.rngIdentifier == plan.rngIdentifier
    && receipt.populationDigest == plan.episodicPopulationDigest
    && receipt.episodicPopulationCount == plan.episodicPopulationCount
    && receipt.episodicWinnerBudget == plan.episodicWinnerBudget
    && receipt.episodicWinnerBytes == plan.episodicWinnerBytes
    && receipt.semanticCountBudget == plan.semanticCountBudget
    && receipt.semanticBodyBytes == plan.semanticBodyBytes
    && receipt.stateDigest == plan.projectedStateDigest
    && receipt.stateDigest == inputs.observedStateDigest
    && receipt.closure == ClosureOf(plan)
  }

  function CheckReceipt(receipt: ProofReceipt, plan: RetirementPlan, inputs: VerificationInputs, env: Environment,
      digests: ReceiptDigests): Result<VerifiedReceipt>
  {
    var _ :- VerifyPlanStructure(plan, env);
    var _ :- Need(receipt.receiptId == RecomputeReceiptId(receipt, digests), ReceiptRejected);
    var _ :- Need(FieldsMatch(receipt, plan, inputs, env, digests), ReceiptRejected);
    var _ :- Need(Normalized(inputs.observedArtifacts) == receipt.closure.exactArtifactDigests, ReceiptRejected);
    var _ :- Need(receipt.overallStatus == Passed && receipt.invariants == InvariantMap(), ReceiptRejected);
    Ok(VerifiedReceipt(receipt.receiptId, receipt.runId, receipt.planDigest, Verified))
  }

  /** `verify_receipt`. */
  ghost function VerifyReceipt(receipt: ProofReceipt, inputs: VerificationInputs, env: Environment,
      digests: ReceiptDigests):
    Result<VerifiedReceipt>
    requires Live(env.stream(inputs.seed))
  {
    var _ :- Need(receipt.contractVersion == Ascii("proof-receipt-v1"), UnknownVersion);
    var _ :- ValidatePolicy(inputs.policy);
    var plan :- PlanRetirement(inputs.snapshot, inputs.policy, inputs.seed, env);
    CheckReceipt(receipt, plan, inputs, env, digests)
  }

  // ---------- which receipts are accepted ----------

  /** What the verifier has to observe: the planned state and the planned artifacts. */
  ghost predicate ObservedCloses(inputs: VerificationInputs, plan: RetirementPlan) {
    && inputs.observedStateDigest == plan.projectedStateDigest
    && Normalized(inputs.observedArtifacts) == ClosureOf(plan).exactArtifactDigests
  }

  lemma {:induction false} PlanKeepsInputs(snapshot: RetirementSnapshot, policy: Policy, seed: Seed, env: Environment)
    requires Live(env.stream(seed)) && PlanRetirement(snapshot, policy, seed, env).Ok?
    ensures var plan := PlanRetirement(snapshot, policy, seed, env).value;
      policy == POC_V1 && plan.seed == seed && plan.policyDigest == env.authority.policyDigest
  {
    hide PlanRetirement, SoundCohort, Clusters, Qualifying, AllScored, AllScoredSemantic, DrawWinners, ProjectPostState,
      DecideAll, SelectFrom, SortBy, Explained, AllSemantic, IndicesOf, InputDigest, PopulationDigest,
      SemanticCountBudget, AllFit;
    var scored, selection, draw, post := PlanParts(snapshot, policy, seed, env);
  }

  /** For a plan whose structure is accepted, exactly one receipt is: the one that applying it issues. */
  lemma {:induction false} OneReceipt(receipt: ProofReceipt, plan: RetirementPlan, inputs: VerificationInputs,
      env: Environment, digests: ReceiptDigests)
    requires plan.seed == inputs.seed && plan.policyDigest == env.authority.policyDigest
    requires receipt.contractVersion == Ascii("proof-receipt-v1")
    ensures CheckReceipt(receipt, plan, inputs, env, digests).Ok? <==>
      && VerifyPlanStructure(plan, env).Ok? && ObservedCloses(inputs, plan)
      && receipt == ReceiptFor(plan, plan.projectedStateDigest, digests)
  {
    hide VerifyPlanStructure, ClosureOf, InvariantMap, Normalized;
    var issued := ReceiptFor(plan, plan.projectedStateDigest, digests);
    assert issued.(receiptId := 0) == BlankReceipt(plan, plan.projectedStateDigest, digests);
    if CheckReceipt(receipt, plan, inputs, env, digests).Ok? {
      assert receipt.(receiptId := 0) == BlankReceipt(plan, plan.projectedStateDigest, digests);
    }
  }

  /** A receipt is accepted exactly when planning again succeeds, the observations close over the
      new plan, and the receipt is the one issued for it, in every field. */
  lemma {:induction false} AcceptedIff(receipt: ProofReceipt, inputs: VerificationInputs, env: Environment,
      digests: ReceiptDigests)
    requires Live(env.stream(inputs.seed)) && NoCollisions(inputs.snapshot, env)
    ensures var planned := PlanRetirement(inputs.snapshot, inputs.policy, inputs.seed, env);
      VerifyReceipt(receipt, inputs, env, digests).Ok? <==>
        && planned.Ok? && ObservedCloses(inputs, planned.value)
        && receipt == ReceiptFor(planned.value, planned.value.projectedStateDigest, digests)
  {
    hide PlanRetirement, VerifyPlanStructure, NoCollisions, CheckReceipt, ObservedCloses, Live, ClosureOf, InvariantMap;
    var planned := PlanRetirement(inputs.snapshot, inputs.policy, inputs.seed, env);
    if planned.Ok? {
      PlanKeepsInputs(inputs.snapshot, inputs.policy, inputs.seed, env);
      PlansAreAccepted(inputs.snapshot, inputs.policy, inputs.seed, env);
      if receipt.contractVersion == Ascii("proof-receipt-v1") {
        OneReceipt(receipt, planned.value, inputs, env, digests);
      }
    }
  }

  /** Any two accepted receipts for the same inputs are equal in every field; no assumption on
      collisions is needed. */
  lemma {:induction false} ReceiptsAreUnique(a: ProofReceipt, b: ProofReceipt, inputs: VerificationInputs,
      env: Environment, digests: ReceiptDigests)
    requires Live(env.stream(inputs.seed))
    requires VerifyReceipt(a, inputs, env, digests).Ok? && VerifyReceipt(b, inputs, env, digests).Ok?
    ensures a == b
  {
    hide PlanRetirement, VerifyPlanStructure, CheckReceipt, ObservedCloses, Live, ClosureOf, InvariantMap, ReceiptFor;
    var plan := PlanRetirement(inputs.snapshot, inputs.policy, inputs.seed, env).value;
    PlanKeepsInputs(inputs.snapshot, inputs.policy, inputs.seed, env);
    OneReceipt(a, plan, inputs, env, digests);
    OneReceipt(b, plan, inputs, env, digests);
  }

  /** Issuing succeeds exactly on an outcome that closes over the plan, and what it issues for a
      planned retirement is accepted by a verifier who observes that outcome. */
  lemma {:induction false} IssuedReceiptsVerify(inputs: VerificationInputs, outcome: ApplyOutcome, env: Environment,
      digests: ReceiptDigests)
    requires Live(env.stream(inputs.seed)) && NoCollisions(inputs.snapshot, env)
    requires PlanRetirement(inputs.snapshot, inputs.policy, inputs.seed, env).Ok?
    requires inputs.observedStateDigest == outcome.stateDigest
    requires inputs.observedArtifacts == outcome.exactArtifactDigests
    ensures var plan := PlanRetirement(inputs.snapshot, inputs.policy, inputs.seed, env).value;
      var issued := Issue(plan, Ok(outcome), env, digests);
      && (issued.Ok? <==> CheckOutcome(plan, outcome).Ok?)
      && (issued.Ok? ==> VerifyReceipt(issued.value, inputs, env, digests).Ok?)
  {
    hide PlanRetirement, VerifyPlanStructure, NoCollisions, VerifyReceipt, Live, ClosureOf, InvariantMap, ReceiptFor,
      Normalized;
    var plan := PlanRetirement(inputs.snapshot, inputs.policy, inputs.seed, env).value;
    PlansAreAccepted(inputs.snapshot, inputs.policy, inputs.seed, env);
    var issued := Issue(plan, Ok(outcome), env, digests);
    if issued.Ok? {
      AcceptedIff(issued.value, inputs, env, digests);
    }
  }

  // ---------- an honest repository ----------

  lemma {:induction false} NormalArtifacts(decisions: seq<RetirementDecision>)
    requires forall i :: 0 <= i < |decisions| ==> StrictlyIncreasing(decisions[i].exactArtifactDigests)
    ensures forall id :: id in RetainedArtifacts(decisions) ==> StrictlyIncreasing(RetainedArtifacts(decisions)[id])
  {
    hide StrictlyIncreasing;
    if decisions != [] {
      NormalArtifacts(decisions[..|decisions| - 1]);
    }
  }

  lemma {:induction false} NormalIsFixed(artifacts: ArtifactMap)
    requires forall id :: id in artifacts ==> StrictlyIncreasing(artifacts[id])
    ensures Normalized(artifacts) == artifacts
  {
  }

  /** What a repository reports that has done exactly what the plan says. */
  function HonestOutcome(plan: RetirementPlan): ApplyOutcome {
    var closure := ClosureOf(plan);
    ApplyOutcome(plan.inputSetDigest, plan.projectedStateDigest, |plan.decisions|, closure.semanticAtomIds,
      closure.exactEpisodeIds, closure.exactArtifactDigests, false)
  }

  lemma {:induction false} DecidedArtifactsIncrease(cs: seq<RetirementCandidate>, winners: seq<AtomId>,
      atoms: seq<PlannedSemantic>)
    requires AllSemantic(atoms)
    ensures forall i :: 0 <= i < |cs| ==> StrictlyIncreasing(DecideAll(cs, winners, atoms)[i].exactArtifactDigests)
  {
    hide SemanticIdsFor, SortBy;
  }

  /** Planned artifact lists are already normal, so the honest outcome of a plan is accepted. */
  lemma {:induction false} HonestOutcomeCloses(snapshot: RetirementSnapshot, policy: Policy, seed: Seed,
      env: Environment)
    requires Live(env.stream(seed)) && PlanRetirement(snapshot, policy, seed, env).Ok?
    ensures var plan := PlanRetirement(snapshot, policy, seed, env).value;
      CheckOutcome(plan, HonestOutcome(plan)) == Ok(())
  {
    hide PlanRetirement, SoundCohort, Clusters, Qualifying, AllScored, AllScoredSemantic, DrawWinners, ProjectPostState,
      DecideAll, SelectFrom, SortBy, Explained, AllSemantic, IndicesOf, InputDigest, PopulationDigest,
      SemanticCountBudget, AllFit, StrictlyIncreasing, Normalized, RetainedArtifacts;
    var scored, selection, draw, post := PlanParts(snapshot, policy, seed, env);
    var cs := Ordered(snapshot.atoms);
    DecidedArtifactsIncrease(cs, draw.winners, selection.atoms);
    NormalArtifacts(DecideAll(cs, draw.winners, selection.atoms));
    NormalIsFixed(RetainedArtifacts(DecideAll(cs, draw.winners, selection.atoms)));
  }

  /** Verification does not depend on the order of the snapshot. */
  lemma {:induction false} VerificationForgetsOrder(receipt: ProofReceipt, inputs: VerificationInputs,
      atoms: seq<RetirementCandidate>, env: Environment, digests: ReceiptDigests)
    requires Live(env.stream(inputs.seed)) && multiset(atoms) == multiset(inputs.snapshot.atoms)
    requires VerifyReceipt(receipt, inputs, env, digests).Ok?
    ensures VerifyReceipt(receipt, inputs.(snapshot := inputs.snapshot.(atoms := atoms)), env, digests) ==
      VerifyReceipt(receipt, inputs, env, digests)
  {
    hide PlanOrdered, Live, Admit, FieldsMatch, VerifyPlanStructure, InvariantMap;
    PlanForgetsOrder(inputs.snapshot, inputs.snapshot.(atoms := atoms), inputs.policy, inputs.seed, env);
    hide PlanRetirement;
    var plan := PlanRetirement(inputs.snapshot, inputs.policy, inputs.seed, env).value;
    assert FieldsMatch(receipt, plan, inputs.(snapshot := inputs.snapshot.(atoms := atoms)), env, digests)
      == FieldsMatch(receipt, plan, inputs, env, digests) by {
      SameFields(receipt, plan, inputs, inputs.snapshot.(atoms := atoms), env, digests);
    }
  }

  lemma {:induction false} SameFields(receipt: ProofReceipt, plan: RetirementPlan, inputs: VerificationInputs,
      snapshot: RetirementSnapshot, env: Environment, digests: ReceiptDigests)
    ensures FieldsMatch(receipt, plan, inputs.(snapshot := snapshot), env, digests)
      == FieldsMatch(receipt, plan, inputs, env, digests)
  {
    hide ClosureOf;
  }
}
