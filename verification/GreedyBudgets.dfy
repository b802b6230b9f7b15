/** What the greedy selection guarantees: its dispositions follow one rule on prefixes, budgets
    hold, byte totals add up, and nothing that was skipped would still fit. */
module GreedyBudgets {
  import opened Wrappers
  import opened Numbers
  import opened Fixed
  import opened Model
  import opened Plans
  import opened SemanticSelection

  // ---------- the rule, on decisions alone ----------

  function SelectedCount(decisions: seq<SemanticDecision>): nat {
    if decisions == [] then 0
    else
      var last := decisions[|decisions| - 1];
      SelectedCount(decisions[..|decisions| - 1]) + (if last.disposition == Selected then 1 else 0)
  }

  function SelectedBytes(decisions: seq<SemanticDecision>): nat {
    if decisions == [] then 0
    else
      var last := decisions[|decisions| - 1];
      SelectedBytes(decisions[..|decisions| - 1])
        + (if last.disposition == Selected then last.canonicalSizeBytes else 0)
  }

  /** What a candidate deserves after what has been selected so far. */
  function Deserved(size: nat, count: nat, bytes: nat, countBudget: nat, policy: Policy): Disposition {
    if size > policy.atomHardMaxBytes then SkippedAtomHardLimit
    else if count >= countBudget then SkippedCountBudget
    else if bytes + size > policy.semanticBodyBudgetBytes then SkippedByteBudget
    else Selected
  }

  ghost predicate FollowsRule(decisions: seq<SemanticDecision>, countBudget: nat, policy: Policy) {
    forall i :: 0 <= i < |decisions| ==>
      decisions[i].disposition ==
        Deserved(decisions[i].canonicalSizeBytes, SelectedCount(decisions[..i]), SelectedBytes(decisions[..i]),
          countBudget, policy)
  }

  function SizeOfAtoms(atoms: seq<PlannedSemantic>): nat {
    if atoms == [] then 0 else SizeOfAtoms(atoms[..|atoms| - 1]) + atoms[|atoms| - 1].canonicalSizeBytes
  }

  /** The state of the selection loop: what it has decided explains what it has selected. */
  ghost predicate Explained(s: Selection, countBudget: nat, policy: Policy) {
    && FollowsRule(s.decisions, countBudget, policy)
    && SelectedCount(s.decisions) == |s.atoms| <= countBudget
    && SelectedBytes(s.decisions) == SizeOfAtoms(s.atoms) == s.bytes <= policy.semanticBodyBudgetBytes
  }

  lemma {:induction false} RuleStep(decisions: seq<SemanticDecision>, next: SemanticDecision, countBudget: nat,
      policy: Policy)
    ensures FollowsRule(decisions + [next], countBudget, policy) <==>
      FollowsRule(decisions, countBudget, policy)
      && next.disposition ==
           Deserved(next.canonicalSizeBytes, SelectedCount(decisions), SelectedBytes(decisions), countBudget, policy)
  {
    hide Deserved, SelectedCount, SelectedBytes;
    var all := decisions + [next];
    assert all[..|decisions|] == decisions;
    assert forall i :: 0 <= i < |decisions| ==> all[..i] == decisions[..i] && all[i] == decisions[i];
  }

  lemma {:induction false} TotalsStep(decisions: seq<SemanticDecision>, next: SemanticDecision)
    ensures SelectedCount(decisions + [next]) ==
      SelectedCount(decisions) + (if next.disposition == Selected then 1 else 0)
    ensures SelectedBytes(decisions + [next]) ==
      SelectedBytes(decisions) + (if next.disposition == Selected then next.canonicalSizeBytes else 0)
  {
    assert (decisions + [next])[..|decisions|] == decisions;
  }

  /** One step keeps the explanation, and cannot fail. */
  lemma {:induction false} StepExplained(scored: Scored, countBudget: nat, before: Selection, policy: Policy)
    requires Explained(before, countBudget, policy) && scored.planned.body.payload.Semantic?
    requires policy.semanticBodyBudgetBytes + policy.atomHardMaxBytes < TWO64
    ensures SelectOne(scored, countBudget, before, policy).Ok?
    ensures var after := SelectOne(scored, countBudget, before, policy).value;
      && Explained(after, countBudget, policy)
      && after.decisions == before.decisions + [Judge(scored, after.decisions[|before.decisions|].disposition)]
      && before.atoms <= after.atoms && before.bytes <= after.bytes
  {
    hide FollowsRule, SelectedCount, SelectedBytes, SizeOfAtoms;
    var after := SelectOne(scored, countBudget, before, policy).value;
    var next := after.decisions[|before.decisions|];
    RuleStep(before.decisions, next, countBudget, policy);
    TotalsStep(before.decisions, next);
    SizeStep(before.atoms, scored.planned);
  }

  lemma {:induction false} SizeStep(atoms: seq<PlannedSemantic>, next: PlannedSemantic)
    ensures SizeOfAtoms(atoms + [next]) == SizeOfAtoms(atoms) + next.canonicalSizeBytes
  {
    assert (atoms + [next])[..|atoms|] == atoms;
  }

  ghost predicate AllScoredSemantic(scored: seq<Scored>) {
    forall i :: 0 <= i < |scored| ==> scored[i].planned.body.payload.Semantic?
  }

  /** The selection never fails, keeps its explanation and only ever adds. */
  lemma {:induction false} SelectionExplained(scored: seq<Scored>, countBudget: nat, before: Selection, policy: Policy)
    requires Explained(before, countBudget, policy) && AllScoredSemantic(scored)
    requires policy.semanticBodyBudgetBytes + policy.atomHardMaxBytes < TWO64
    ensures SelectFrom(scored, countBudget, before, policy).Ok?
    ensures var after := SelectFrom(scored, countBudget, before, policy).value;
      && Explained(after, countBudget, policy)
      && |after.decisions| == |before.decisions| + |scored|
      && before.decisions <= after.decisions && before.atoms <= after.atoms && before.bytes <= after.bytes
  {
    hide Explained, SelectOne;
    if scored != [] {
      StepExplained(scored[0], countBudget, before, policy);
      SelectionExplained(scored[1..], countBudget, SelectOne(scored[0], countBudget, before, policy).value, policy);
    }
  }

  /** Each decision is about the candidate at its position. */
  lemma {:induction false} DecisionsMatch(scored: seq<Scored>, countBudget: nat, before: Selection, policy: Policy,
      i: nat)
    requires Explained(before, countBudget, policy) && AllScoredSemantic(scored) && i < |scored|
    requires policy.semanticBodyBudgetBytes + policy.atomHardMaxBytes < TWO64
    ensures SelectFrom(scored, countBudget, before, policy).Ok?
    ensures var after := SelectFrom(scored, countBudget, before, policy).value;
      && |after.decisions| == |before.decisions| + |scored|
      && after.decisions[|before.decisions| + i] ==
           Judge(scored[i], after.decisions[|before.decisions| + i].disposition)
  {
    hide Explained, SelectOne, Judge;
    StepExplained(scored[0], countBudget, before, policy);
    var next := SelectOne(scored[0], countBudget, before, policy).value;
    SelectionExplained(scored[1..], countBudget, next, policy);
    if i > 0 {
      DecisionsMatch(scored[1..], countBudget, next, policy, i - 1);
    } else {
      assert next.decisions[|before.decisions|] ==
        SelectFrom(scored, countBudget, before, policy).value.decisions[|before.decisions|];
    }
  }

  lemma {:induction false} NothingIsExplained(countBudget: nat, policy: Policy)
    ensures Explained(NOTHING, countBudget, policy)
  {
  }

  // ---------- what follows from the rule ----------

  lemma {:induction false} TotalsGrow(decisions: seq<SemanticDecision>, i: nat)
    requires i <= |decisions|
    ensures SelectedCount(decisions[..i]) <= SelectedCount(decisions)
    ensures SelectedBytes(decisions[..i]) <= SelectedBytes(decisions)
  {
    if i < |decisions| {
      var n := |decisions| - 1;
      TotalsGrow(decisions[..n], i);
      assert decisions[..n][..i] == decisions[..i];
    } else {
      assert decisions[..i] == decisions;
    }
  }

  /** No skipped candidate would fit on top of the final selection: it is over the hard limit, or
      the count budget is used up, or its bytes exceed what is left. */
  lemma {:induction false} NothingSkippedFits(decisions: seq<SemanticDecision>, countBudget: nat, policy: Policy,
      i: nat)
    requires FollowsRule(decisions, countBudget, policy) && i < |decisions| && decisions[i].disposition != Selected
    ensures decisions[i].canonicalSizeBytes > policy.atomHardMaxBytes
      || SelectedCount(decisions) >= countBudget
      || SelectedBytes(decisions) + decisions[i].canonicalSizeBytes > policy.semanticBodyBudgetBytes
  {
    TotalsGrow(decisions, i);
  }

  /** The rule leaves no freedom: the same candidates get the same dispositions. */
  lemma {:induction false} RuleDeterminesDispositions(a: seq<SemanticDecision>, b: seq<SemanticDecision>,
      countBudget: nat, policy: Policy)
    requires FollowsRule(a, countBudget, policy) && FollowsRule(b, countBudget, policy)
    requires |a| == |b| && forall i :: 0 <= i < |a| ==> a[i].(disposition := Selected) == b[i].(disposition := Selected)
    ensures a == b
  {
    hide Deserved, FollowsRule, SelectedCount, SelectedBytes;
    if a != [] {
      var n := |a| - 1;
      assert a == a[..n] + [a[n]] && b == b[..n] + [b[n]];
      RuleStep(a[..n], a[n], countBudget, policy);
      RuleStep(b[..n], b[n], countBudget, policy);
      RuleDeterminesDispositions(a[..n], b[..n], countBudget, policy);
      assert a[n].(disposition := Selected) == b[n].(disposition := Selected);
    }
  }

  lemma {:induction false} SelectedBytesBound(decisions: seq<SemanticDecision>, countBudget: nat, policy: Policy)
    requires FollowsRule(decisions, countBudget, policy)
    ensures SelectedBytes(decisions) <= SelectedCount(decisions) * policy.atomHardMaxBytes
  {
    if decisions != [] {
      hide FollowsRule, Deserved;
      var n := |decisions| - 1;
      assert decisions == decisions[..n] + [decisions[n]];
      RuleStep(decisions[..n], decisions[n], countBudget, policy);
      SelectedBytesBound(decisions[..n], countBudget, policy);
      SelectedFits(decisions[n].canonicalSizeBytes, SelectedCount(decisions[..n]), SelectedBytes(decisions[..n]),
        countBudget, policy);
      TotalsStep(decisions[..n], decisions[n]);
      OneMore(SelectedCount(decisions[..n]), policy.atomHardMaxBytes);
    }
  }

  lemma {:induction false} OneMore(count: nat, size: nat)
    ensures (count + 1) * size == count * size + size
  {
  }

  lemma {:induction false} SelectedFits(size: nat, count: nat, bytes: nat, countBudget: nat, policy: Policy)
    ensures Deserved(size, count, bytes, countBudget, policy) == Selected ==> size <= policy.atomHardMaxBytes
  {
  }

  /** Up to 1,600 atoms the count budget is at most 32, and 32 atoms of the greatest size fill the
      byte budget exactly, so the byte budget never excludes anything. */
  lemma {:induction false} SmallCohortsFit(decisions: seq<SemanticDecision>, cohort: nat, i: nat)
    requires cohort <= 1_600 && i < |decisions|
    requires FollowsRule(decisions, SemanticCountBudget(cohort, POC_V1), POC_V1)
    ensures decisions[i].disposition != SkippedByteBudget
  {
    var countBudget := SemanticCountBudget(cohort, POC_V1);
    CeilCountMonotone(POC_V1.semanticRate, cohort, 1_600);
    assert CeilCount(POC_V1.semanticRate, 1_600) == 32;
    assert FollowsRule(decisions[..i], countBudget, POC_V1) by {
      forall k | 0 <= k < i ensures decisions[..i][k] == decisions[k] && decisions[..i][..k] == decisions[..k] {
      }
    }
    SelectedBytesBound(decisions[..i], countBudget, POC_V1);
    var c := SelectedCount(decisions[..i]);
    if c < countBudget {
      MulMonotone(c, 31, POC_V1.atomHardMaxBytes);
    }
  }

  /** The bound is sharp: a larger cohort allows 33 selections, but among candidates of the
      greatest size the byte budget already excludes the 33rd. */
  lemma {:induction false} LargerCohortsMayNotFit(scored: seq<Scored>, cohort: nat)
    requires cohort > 1_600 && |scored| > 32 && AllScoredSemantic(scored)
    requires forall i :: 0 <= i <= 32 ==> scored[i].planned.canonicalSizeBytes == POC_V1.atomHardMaxBytes
    ensures var countBudget := SemanticCountBudget(cohort, POC_V1);
      var selected := SelectFrom(scored, countBudget, NOTHING, POC_V1);
      && countBudget > 32
      && selected.Ok? && |selected.value.decisions| == |scored|
      && selected.value.decisions[32].disposition == SkippedByteBudget
  {
    hide SelectFrom, Deserved, FollowsRule, Judge, SelectedCount, SelectedBytes, Explained;
    var countBudget := SemanticCountBudget(cohort, POC_V1);
    CeilCountMonotone(POC_V1.semanticRate, 1_601, cohort);
    assert CeilCount(POC_V1.semanticRate, 1_601) == 33;
    NothingIsExplained(countBudget, POC_V1);
    SelectionExplained(scored, countBudget, NOTHING, POC_V1);
    var decisions := SelectFrom(scored, countBudget, NOTHING, POC_V1).value.decisions;
    forall i | 0 <= i <= 32 ensures decisions[i].canonicalSizeBytes == POC_V1.atomHardMaxBytes {
      DecisionsMatch(scored, countBudget, NOTHING, POC_V1, i);
      JudgedSize(scored[i], decisions[i].disposition);
    }
    ExplainedRule(SelectFrom(scored, countBudget, NOTHING, POC_V1).value, countBudget);
    FullSizedFill(decisions, countBudget, 32);
    RuleHere(decisions, countBudget, 32);
  }

  lemma {:induction false} JudgedSize(scored: Scored, disposition: Disposition)
    requires scored.planned.body.payload.Semantic?
    ensures Judge(scored, disposition).canonicalSizeBytes == scored.planned.canonicalSizeBytes
  {
  }

  lemma {:induction false} ExplainedRule(s: Selection, countBudget: nat)
    requires Explained(s, countBudget, POC_V1)
    ensures FollowsRule(s.decisions, countBudget, POC_V1)
  {
  }

  lemma {:induction false} RuleHere(decisions: seq<SemanticDecision>, countBudget: nat, i: nat)
    requires i < |decisions| && FollowsRule(decisions, countBudget, POC_V1)
    requires decisions[i].canonicalSizeBytes == POC_V1.atomHardMaxBytes && i < countBudget
    requires SelectedCount(decisions[..i]) == i && SelectedBytes(decisions[..i]) == i * POC_V1.atomHardMaxBytes
    ensures decisions[i].disposition ==
      if (i + 1) * POC_V1.atomHardMaxBytes > POC_V1.semanticBodyBudgetBytes then SkippedByteBudget else Selected
  {
    hide SelectedCount, SelectedBytes;
  }

  /** Full-sized candidates are all selected as long as they fill no more than the byte budget. */
  lemma {:induction false} FullSizedFill(decisions: seq<SemanticDecision>, countBudget: nat, i: nat)
    requires i <= |decisions| && i <= 32 <= countBudget && FollowsRule(decisions, countBudget, POC_V1)
    requires forall k :: 0 <= k < i ==> decisions[k].canonicalSizeBytes == POC_V1.atomHardMaxBytes
    ensures SelectedCount(decisions[..i]) == i && SelectedBytes(decisions[..i]) == i * POC_V1.atomHardMaxBytes
  {
    hide FollowsRule, SelectedCount, SelectedBytes;
    if i == 0 {
      EmptyTotals();
    } else {
      FullSizedFill(decisions, countBudget, i - 1);
      RuleHere(decisions, countBudget, i - 1);
      assert decisions[..i] == decisions[..i - 1] + [decisions[i - 1]];
      TotalsStep(decisions[..i - 1], decisions[i - 1]);
    }
  }

  lemma {:induction false} EmptyTotals()
    ensures SelectedCount([]) == 0 && SelectedBytes([]) == 0
  {
  }
}
