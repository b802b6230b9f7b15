/** What the structural check guarantees about any plan it accepts, wherever the plan came from. */
module PlanSoundness {
  import opened Wrappers
  import opened Numbers
  import opened Sequences
  import opened Fixed
  import opened Digests
  import opened Model
  import opened Validation
  import opened Plans
  import opened Retirement
  import opened SemanticSelection
  import opened GreedyBudgets
  import opened PlanStructure

  /** The atoms from a position on are, in order, those of the selected decisions. */
  ghost predicate Paired(decisions: seq<SemanticDecision>, atoms: seq<PlannedSemantic>, selected: nat)
    decreases |decisions|
  {
    if decisions == [] then selected == |atoms|
    else if decisions[0].disposition != Selected then Paired(decisions[1..], atoms, selected)
    else selected < |atoms| && Matches(atoms[selected], decisions[0]) && Paired(decisions[1..], atoms, selected + 1)
  }

  /** Far enough from the 64-bit limit that the structural check's addition never overflows. */
  ghost predicate SizesAddUp(decisions: seq<SemanticDecision>) {
    forall i :: 0 <= i < |decisions| ==> POC_V1.semanticBodyBudgetBytes + decisions[i].canonicalSizeBytes < TWO64
  }

  /** The replay accepts exactly the decisions that follow the budget rule and pair with the
      atoms, as long as its additions fit 64 bits; what it accepts always does both. */
  lemma {:induction false} ReplayIsRule(before: seq<SemanticDecision>, rest: seq<SemanticDecision>,
      atoms: seq<PlannedSemantic>, countBudget: nat, bytes: u64)
    requires FollowsRule(before, countBudget, POC_V1)
    requires SelectedBytes(before) == bytes <= POC_V1.semanticBodyBudgetBytes
    ensures var accepted := Replay(rest, atoms, countBudget, SelectedCount(before), bytes, POC_V1).Ok?;
      var expected := FollowsRule(before + rest, countBudget, POC_V1) && Paired(rest, atoms, SelectedCount(before));
      && (accepted ==> expected)
      && (expected && SizesAddUp(rest) ==> accepted)
    decreases |rest|
  {
    hide FollowsRule, Matches, Deserved, SelectedCount, SelectedBytes, ExpectedDisposition;
    if rest == [] {
      assert before + rest == before;
    } else {
      var d, selected := rest[0], SelectedCount(before);
      var deserved := Deserved(d.canonicalSizeBytes, selected, bytes, countBudget, POC_V1);
      assert before + rest == (before + [d]) + rest[1..];
      ExpectedHere(d.canonicalSizeBytes, selected, bytes, countBudget);
      RuleStep(before, d, countBudget, POC_V1);
      TotalsStep(before, d);
      assert SizesAddUp(rest) ==> SizesAddUp(rest[1..]);
      if d.disposition != deserved {
        PrefixFollows(before + [d], rest[1..], countBudget);
      } else {
        DeservedFits(d.canonicalSizeBytes, selected, bytes, countBudget);
        ReplayIsRule(before + [d], rest[1..], atoms, countBudget, SelectedBytes(before + [d]));
      }
    }
  }

  lemma {:induction false} ExpectedHere(size: u64, count: nat, bytes: u64, countBudget: nat)
    ensures ExpectedDisposition(size, count, bytes, countBudget, POC_V1) ==
      if bytes + size < TWO64 then Ok((Deserved(size, count, bytes, countBudget, POC_V1), bytes + size))
      else Err(ReceiptRejected)
  {
  }

  lemma {:induction false} DeservedFits(size: nat, count: nat, bytes: nat, countBudget: nat)
    ensures Deserved(size, count, bytes, countBudget, POC_V1) == Selected ==>
      bytes + size <= POC_V1.semanticBodyBudgetBytes && count < countBudget
  {
  }

  lemma {:induction false} PrefixFollows(before: seq<SemanticDecision>, rest: seq<SemanticDecision>, countBudget: nat)
    ensures FollowsRule(before + rest, countBudget, POC_V1) ==> FollowsRule(before, countBudget, POC_V1)
  {
    hide Deserved, SelectedCount, SelectedBytes;
    assert forall i :: 0 <= i < |before| ==> (before + rest)[..i] == before[..i] && (before + rest)[i] == before[i];
  }

  // ---------- what pairing says ----------

  lemma {:induction false} PairedTotals(decisions: seq<SemanticDecision>, rest: seq<SemanticDecision>,
      atoms: seq<PlannedSemantic>, selected: nat)
    requires Paired(rest, atoms, selected) && selected <= |atoms|
    requires SelectedCount(decisions) == selected && SelectedBytes(decisions) == SizeOfAtoms(atoms[..selected])
    ensures SelectedCount(decisions + rest) == |atoms|
    ensures SelectedBytes(decisions + rest) == SizeOfAtoms(atoms)
    decreases |rest|
  {
    hide Matches, SelectedCount, SelectedBytes;
    if rest == [] {
      assert decisions + rest == decisions && atoms[..|atoms|] == atoms;
    } else {
      var d := rest[0];
      TotalsStep(decisions, d);
      assert decisions + rest == (decisions + [d]) + rest[1..];
      if d.disposition == Selected {
        assert atoms[..selected + 1][..selected] == atoms[..selected];
        SizesMatch(atoms[selected], d);
        PairedTotals(decisions + [d], rest[1..], atoms, selected + 1);
      } else {
        PairedTotals(decisions + [d], rest[1..], atoms, selected);
      }
    }
  }

  lemma {:induction false} SizesMatch(semantic: PlannedSemantic, d: SemanticDecision)
    requires Matches(semantic, d)
    ensures semantic.canonicalSizeBytes == d.canonicalSizeBytes
  {
  }

  lemma {:induction false} RuleKeepsBudgets(decisions: seq<SemanticDecision>, countBudget: nat)
    requires FollowsRule(decisions, countBudget, POC_V1)
    ensures SelectedCount(decisions) <= countBudget
    ensures SelectedBytes(decisions) <= POC_V1.semanticBodyBudgetBytes
  {
    hide FollowsRule, Deserved;
    if decisions != [] {
      var n := |decisions| - 1;
      assert decisions == decisions[..n] + [decisions[n]];
      RuleStep(decisions[..n], decisions[n], countBudget, POC_V1);
      TotalsStep(decisions[..n], decisions[n]);
      RuleKeepsBudgets(decisions[..n], countBudget);
      DeservedFits(decisions[n].canonicalSizeBytes, SelectedCount(decisions[..n]), SelectedBytes(decisions[..n]),
        countBudget);
    }
  }

  lemma {:induction false} CheckedAtoms(atoms: seq<PlannedSemantic>, seen: set<AtomId>, policy: Policy,
      authority: Authority)
    requires CheckSemanticAtoms(atoms, seen, policy, authority).Ok?
    ensures forall i :: 0 <= i < |atoms| ==>
      atoms[i].atomId !in seen && AtomIdOf(atoms[i].body, authority.hash) == Ok(atoms[i].atomId)
    ensures forall i, j :: 0 <= i < j < |atoms| ==> atoms[i].atomId != atoms[j].atomId
  {
    hide ValidateMemoryAtomBody, EncodedSizeBytes, AtomIdOf;
    if atoms != [] {
      CheckedAtoms(atoms[1..], seen + {atoms[0].atomId}, policy, authority);
      assert forall i :: 1 <= i < |atoms| ==> atoms[i] == atoms[1..][i - 1];
    }
  }

  /** An accepted plan, whoever made it: its dispositions follow the budget rule, its semantic
      atoms are the selected ones under distinct content addresses, every total is the sum it
      claims and within its budget, and nothing that was skipped would still fit. */
  lemma {:induction false} AcceptedPlansAreSound(plan: RetirementPlan, env: Environment)
    requires VerifyPlanStructure(plan, env).Ok?
    ensures FollowsRule(plan.semanticDecisions, plan.semanticCountBudget, POC_V1)
    ensures Paired(plan.semanticDecisions, plan.semanticAtoms, 0)
    ensures |plan.semanticAtoms| == SelectedCount(plan.semanticDecisions) <= plan.semanticCountBudget
    ensures plan.semanticBodyBytes == SizeOfAtoms(plan.semanticAtoms) == SelectedBytes(plan.semanticDecisions)
      <= POC_V1.semanticBodyBudgetBytes
    ensures forall i :: 0 <= i < |plan.semanticAtoms| ==>
      AtomIdOf(plan.semanticAtoms[i].body, env.authority.hash) == Ok(plan.semanticAtoms[i].atomId)
    ensures forall i, j :: 0 <= i < j < |plan.semanticAtoms| ==>
      plan.semanticAtoms[i].atomId != plan.semanticAtoms[j].atomId
    ensures forall i :: 0 <= i < |plan.semanticDecisions| && plan.semanticDecisions[i].disposition != Selected ==>
      StillDoesNotFit(plan, plan.semanticDecisions[i])
    ensures WinnersKept(plan)
  {
    hide VerifyPostState, CheckSemanticAtoms, CheckCandidateIds, Replay, FollowsRule, WinnersKept, Paired,
      SelectedCount, SelectedBytes, SizeOfAtoms, AtomIdOf, AsSet, RetainedIds, Adjacent, InScoreOrder,
      SemanticBytesTotal;
    EvidenceFacts(plan, env);
    WinnerFacts(plan, env);
    CheckedAtoms(plan.semanticAtoms, {}, POC_V1, env.authority);
    StartFacts(plan.semanticCountBudget, plan.semanticAtoms);
    ReplayIsRule([], plan.semanticDecisions, plan.semanticAtoms, plan.semanticCountBudget, 0);
    assert [] + plan.semanticDecisions == plan.semanticDecisions;
    PairedTotals([], plan.semanticDecisions, plan.semanticAtoms, 0);
    RuleKeepsBudgets(plan.semanticDecisions, plan.semanticCountBudget);
    TotalIsSum(plan.semanticAtoms);
    forall i | 0 <= i < |plan.semanticDecisions| && plan.semanticDecisions[i].disposition != Selected
      ensures StillDoesNotFit(plan, plan.semanticDecisions[i])
    {
      NothingSkippedFits(plan.semanticDecisions, plan.semanticCountBudget, POC_V1, i);
    }
  }

  ghost predicate StillDoesNotFit(plan: RetirementPlan, d: SemanticDecision) {
    || d.canonicalSizeBytes > POC_V1.atomHardMaxBytes
    || |plan.semanticAtoms| >= plan.semanticCountBudget
    || plan.semanticBodyBytes + d.canonicalSizeBytes > POC_V1.semanticBodyBudgetBytes
  }

  /** The winners are the retained atoms in increasing order, exactly as many as the least share
      of the population that reaches the rate, up to the maximum, and claimed within the pin
      budget. The semantic budget is the like share of the cohort, whose ids increase. */
  ghost predicate WinnersKept(plan: RetirementPlan) {
    && StrictlyIncreasing(plan.episodicWinners)
    && AsSet(plan.episodicWinners) == RetainedIds(plan.decisions)
    && IsBudget(|plan.episodicWinners|, POC_V1.episodicRate, plan.episodicPopulationCount, POC_V1.episodicCountMax)
    && |plan.episodicWinners| == plan.episodicWinnerBudget
    && plan.episodicWinnerBytes <= POC_V1.episodicPinBudgetBytes
    && IsBudget(plan.semanticCountBudget, POC_V1.semanticRate, |plan.decisions|, POC_V1.semanticCountMax)
    && forall i, j :: 0 <= i < j < |plan.decisions| ==> plan.decisions[i].atomId < plan.decisions[j].atomId
  }

  /** A count is the maximum if even the maximum is below the share, else the least that reaches it. */
  ghost predicate IsBudget(count: nat, rate: Ppm, population: nat, maximum: nat) {
    && count <= maximum
    && (count < maximum ==> population * rate <= count * SCALE)
    && (count > 0 ==> (count - 1) * SCALE < population * rate)
  }

  lemma {:induction false} BudgetOf(rate: Ppm, population: nat, maximum: nat)
    ensures IsBudget(Min(CeilCount(rate, population), maximum), rate, population, maximum)
  {
  }

  lemma {:induction false} WinnerFacts(plan: RetirementPlan, env: Environment)
    requires VerifyPlanStructure(plan, env).Ok?
    ensures WinnersKept(plan)
  {
    hide VerifyPostState, CheckSemanticEvidence, AsSet, RetainedIds, SemanticBytesTotal, CeilCount, IsBudget;
    AdjacentIncrease(plan.episodicWinners);
    var ids := seq(|plan.decisions|, i requires 0 <= i < |plan.decisions| => plan.decisions[i].atomId);
    AdjacentIncrease(ids);
    assert forall i :: 0 <= i < |ids| ==> ids[i] == plan.decisions[i].atomId;
    BudgetOf(POC_V1.episodicRate, plan.episodicPopulationCount, POC_V1.episodicCountMax);
    BudgetOf(POC_V1.semanticRate, |plan.decisions|, POC_V1.semanticCountMax);
  }

  lemma {:induction false} EvidenceFacts(plan: RetirementPlan, env: Environment)
    requires VerifyPlanStructure(plan, env).Ok?
    ensures CheckSemanticAtoms(plan.semanticAtoms, {}, POC_V1, env.authority).Ok?
    ensures Replay(plan.semanticDecisions, plan.semanticAtoms, plan.semanticCountBudget, 0, 0, POC_V1).Ok?
    ensures SemanticBytesTotal(plan.semanticAtoms) == Ok(plan.semanticBodyBytes)
    ensures AsSet(plan.episodicWinners) == RetainedIds(plan.decisions)
  {
    hide VerifyPostState, CheckSemanticAtoms, CheckCandidateIds, Replay, AsSet, RetainedIds, Adjacent, InScoreOrder,
      SemanticBytesTotal;
  }

  lemma {:induction false} StartFacts(countBudget: nat, atoms: seq<PlannedSemantic>)
    ensures FollowsRule([], countBudget, POC_V1) && SelectedCount([]) == 0 && SelectedBytes([]) == 0
    ensures SizeOfAtoms(atoms[..0]) == 0
  {
  }

  lemma {:induction false} TotalIsSum(atoms: seq<PlannedSemantic>)
    ensures SemanticBytesTotal(atoms).Ok? ==> SemanticBytesTotal(atoms).value == SizeOfAtoms(atoms)
  {
    if atoms != [] {
      TotalIsSum(atoms[..|atoms| - 1]);
    }
  }
}
