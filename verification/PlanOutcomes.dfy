/** When planning succeeds, how it fails, and that the order of the snapshot never matters. */
module PlanOutcomes {
  import opened Wrappers
  import opened Numbers
  import opened Sequences
  import opened Fixed
  import opened Digests
  import opened Model
  import opened Validation
  import opened Lottery
  import opened Clustering
  import opened Consolidation
  import opened Plans
  import opened Cohort
  import opened SemanticSelection
  import opened EpisodicDraw
  import opened Retirement
  import opened AdmittedCohorts
  import opened GreedyBudgets

  // ---------- the order of the snapshot does not matter ----------

  /** Reordering an admitted snapshot gives the same ordered candidates. */
  lemma {:induction false} OrderedForgetsOrder(a: RetirementSnapshot, b: RetirementSnapshot, policy: Policy,
      env: Environment)
    requires Admit(a, policy, env).Ok? && multiset(a.atoms) == multiset(b.atoms)
    ensures Ordered(a.atoms) == Ordered(b.atoms)
  {
    hide CheckCandidates, CheckCandidate;
    AdmittedAreOrdered(a, policy, env);
    var cs := Ordered(a.atoms);
    MembersOfMultiset(a.atoms, cs);
    assert Decided(CandidateLeq, a.atoms) by {
      forall x, y | x in a.atoms && y in a.atoms && CandidateLeq(x, y) && CandidateLeq(y, x) ensures x == y {
        var i :| 0 <= i < |cs| && cs[i] == x;
        var j :| 0 <= j < |cs| && cs[j] == y;
      }
    }
    SortForgetsOrder(CandidateLeq, a.atoms, b.atoms);
  }

  /** Any order of an admitted snapshot is admitted, and gives the identical result. */
  lemma {:induction false} PlanForgetsOrder(a: RetirementSnapshot, b: RetirementSnapshot, policy: Policy, seed: Seed,
      env: Environment)
    requires Live(env.stream(seed))
    requires a.(atoms := b.atoms) == b && multiset(a.atoms) == multiset(b.atoms)
    requires Admit(a, policy, env).Ok?
    ensures PlanRetirement(b, policy, seed, env) == PlanRetirement(a, policy, seed, env)
  {
    hide CheckCandidates, PlanOrdered;
    OrderedForgetsOrder(a, b, policy, env);
    MembersOfMultiset(a.atoms, b.atoms);
    assert CheckSnapshot(a, policy) == CheckSnapshot(b, policy);
    assert Header(a) == Header(b);
  }

  // ---------- the qualifying clusters ----------

  ghost predicate InRange(cs: seq<RetirementCandidate>, clusters: seq<seq<nat>>) {
    forall c :: 0 <= c < |clusters| ==> IndicesOf(cs, clusters[c]) && StrictlyIncreasing(clusters[c])
  }

  ghost function Qualifying(cs: seq<RetirementCandidate>, clusters: seq<seq<nat>>): (r: seq<seq<nat>>)
    requires InRange(cs, clusters)
    ensures InRange(cs, r)
    ensures forall q :: q in r ==> q in clusters && Qualifies(Pick(cs, q))
  {
    if clusters == [] then []
    else
      var rest := Qualifying(cs, clusters[1..]);
      if Qualifies(Pick(cs, clusters[0])) then [clusters[0]] + rest else rest
  }

  ghost predicate HaveBodies(cs: seq<RetirementCandidate>) {
    forall i :: 0 <= i < |cs| ==> cs[i].body.Some?
  }

  lemma {:induction false} SoundHaveBodies(cs: seq<RetirementCandidate>, header: RetirementSnapshot,
      authority: Authority)
    requires SoundCohort(cs, header, authority)
    ensures HaveBodies(cs)
  {
    forall i | 0 <= i < |cs| ensures cs[i].body.Some? {
      assert SoundCandidate(cs[i], header, authority);
    }
  }

  /** The consolidated body of a cluster of candidates, and what planning makes of it. */
  ghost function BodyFor(cs: seq<RetirementCandidate>, cluster: seq<nat>, header: RetirementSnapshot,
      authority: Authority):
    MemoryAtomBody
    requires HaveBodies(cs) && IndicesOf(cs, cluster)
  {
    ClusterBody(Pick(cs, cluster), header, authority.policyDigest)
  }

  ghost function SizeFor(cs: seq<RetirementCandidate>, cluster: seq<nat>, header: RetirementSnapshot,
      authority: Authority): nat
    requires HaveBodies(cs) && IndicesOf(cs, cluster)
  {
    ClusterSize(Pick(cs, cluster), header, authority.policyDigest)
  }

  ghost predicate Fits(cs: seq<RetirementCandidate>, cluster: seq<nat>, header: RetirementSnapshot,
      authority: Authority)
    requires HaveBodies(cs) && IndicesOf(cs, cluster)
  {
    SizeFor(cs, cluster, header, authority) <= POC_V1.atomHardMaxBytes
  }

  ghost predicate AllFit(cs: seq<RetirementCandidate>, qualifying: seq<seq<nat>>, header: RetirementSnapshot,
      authority: Authority)
    requires HaveBodies(cs) && InRange(cs, qualifying)
  {
    forall k :: 0 <= k < |qualifying| ==> Fits(cs, qualifying[k], header, authority)
  }

  ghost function ScoredFor(cs: seq<RetirementCandidate>, cluster: seq<nat>, header: RetirementSnapshot,
      authority: Authority):
    Scored
    requires HaveBodies(cs) && IndicesOf(cs, cluster) && Fits(cs, cluster, header, authority)
  {
    var body := BodyFor(cs, cluster, header, authority);
    var id := SortKey(body, authority.hash);
    Scored(ScoreOf(Pick(cs, cluster), POC_V1), PlannedSemantic(id, id, SizeFor(cs, cluster, header, authority), body))
  }

  ghost function AllScored(cs: seq<RetirementCandidate>, qualifying: seq<seq<nat>>, header: RetirementSnapshot,
      authority: Authority): (r: seq<Scored>)
    requires HaveBodies(cs) && InRange(cs, qualifying) && AllFit(cs, qualifying, header, authority)
    ensures |r| == |qualifying|
    ensures forall k :: 0 <= k < |r| ==> r[k] == ScoredFor(cs, qualifying[k], header, authority)
  {
    seq(|qualifying|, k requires 0 <= k < |qualifying| => ScoredFor(cs, qualifying[k], header, authority))
  }

  /** The two errors a cluster can raise: over the hard limit, or too long for a 64-bit length. */
  ghost predicate OversizeError(cs: seq<RetirementCandidate>, cluster: seq<nat>, header: RetirementSnapshot,
      authority: Authority, error: MemoryError)
    requires HaveBodies(cs) && IndicesOf(cs, cluster)
  {
    var size := SizeFor(cs, cluster, header, authority);
    size > POC_V1.atomHardMaxBytes && error == if size < TWO64 then AtomTooLarge(size) else CanonicalEncoding
  }

  lemma {:induction false} OneCluster(cs: seq<RetirementCandidate>, cluster: seq<nat>, header: RetirementSnapshot,
      authority: Authority)
    requires SoundCohort(cs, header, authority) && HaveBodies(cs)
    requires IndicesOf(cs, cluster) && StrictlyIncreasing(cluster)
    ensures var r := Consider(Pick(cs, cluster), header, authority, POC_V1);
      if !Qualifies(Pick(cs, cluster)) then r == Ok(None)
      else if Fits(cs, cluster, header, authority) then r == Ok(Some(ScoredFor(cs, cluster, header, authority)))
      else r.Err? && OversizeError(cs, cluster, header, authority, r.error)
  {
    hide Qualifies, SortKey, ClusterBody, ScoreOf, SoundCandidate, Consider, ClusterSize;
    PickedAreSound(cs, cluster, header, authority);
    ConsiderOutcome(Pick(cs, cluster), header, authority);
  }

  /** All clusters together: the scored bodies of the qualifying ones, or the first oversize error. */
  lemma {:induction false} ConsiderAllOutcome(cs: seq<RetirementCandidate>, clusters: seq<seq<nat>>, found: seq<Scored>,
      header: RetirementSnapshot, authority: Authority)
    requires SoundCohort(cs, header, authority) && HaveBodies(cs) && InRange(cs, clusters)
    ensures var q := Qualifying(cs, clusters);
      var r := ConsiderAll(cs, clusters, found, header, authority, POC_V1);
      && (AllFit(cs, q, header, authority) ==> r == Ok(found + AllScored(cs, q, header, authority)))
      && (!AllFit(cs, q, header, authority) ==>
            r.Err? && exists k :: 0 <= k < |q| && OversizeError(cs, q[k], header, authority, r.error))
  {
    hide Qualifies, ScoredFor, Consider, SoundCohort, Fits, OversizeError, IndicesOf, StrictlyIncreasing;
    if clusters == [] {
      assert found + AllScored(cs, [], header, authority) == found;
    } else {
      var head, tail := clusters[0], clusters[1..];
      var q, rest := Qualifying(cs, clusters), Qualifying(cs, tail);
      OneCluster(cs, head, header, authority);
      var one := Consider(Pick(cs, head), header, authority, POC_V1);
      if !Qualifies(Pick(cs, head)) {
        ConsiderAllOutcome(cs, tail, found, header, authority);
        assert found + Singleton<Scored>(None) == found;
      } else if Fits(cs, head, header, authority) {
        var s := ScoredFor(cs, head, header, authority);
        ConsiderAllOutcome(cs, tail, found + [s], header, authority);
        if AllFit(cs, rest, header, authority) {
          assert AllFit(cs, q, header, authority);
          assert found + [s] + AllScored(cs, rest, header, authority) == found + AllScored(cs, q, header, authority);
        } else {
          var k :| 0 <= k < |rest| && !Fits(cs, rest[k], header, authority);
          assert q[k + 1] == rest[k];
          var r := ConsiderAll(cs, clusters, found, header, authority, POC_V1);
          var e :| 0 <= e < |rest| && OversizeError(cs, rest[e], header, authority, r.error);
          assert q[e + 1] == rest[e];
        }
      } else {
        assert q[0] == head;
      }
    }
  }

  lemma {:induction false} ClustersAscend(cs: seq<RetirementCandidate>, policy: Policy)
    ensures InRange(cs, Clusters(cs, policy))
    ensures IsClustering(Linked(cs, policy), PermittedIndices(cs, Consolidates), Clusters(cs, policy))
  {
    PermittedAreExact(cs, Consolidates);
    CompleteLinkIsClustering(Linked(cs, policy), PermittedIndices(cs, Consolidates));
  }

  // ---------- the draw ----------

  function TotalBytes(drawn: seq<RetirementCandidate>): nat {
    if drawn == [] then 0 else TotalBytes(drawn[..|drawn| - 1]) + drawn[|drawn| - 1].exactPackageBytes
  }

  ghost predicate PackagesWithin(drawn: seq<RetirementCandidate>, limit: nat) {
    forall i :: 0 <= i < |drawn| ==> drawn[i].exactPackageBytes <= limit
  }

  lemma {:induction false} TotalWithin(drawn: seq<RetirementCandidate>, limit: nat)
    requires PackagesWithin(drawn, limit)
    ensures TotalBytes(drawn) <= |drawn| * limit
  {
    if drawn != [] {
      var n := |drawn| - 1;
      TotalWithin(drawn[..n], limit);
      OneMore(n, limit);
    }
  }

  lemma {:induction false} PackagesAdd(drawn: seq<RetirementCandidate>)
    requires TotalBytes(drawn) < TWO64
    ensures PackageBytes(drawn) == Ok(TotalBytes(drawn))
  {
    if drawn != [] {
      PackagesAdd(drawn[..|drawn| - 1]);
    }
  }

  /** Only candidates that may be kept exactly are drawn, so every package is within its limit. */
  lemma {:induction false} DrawnAreLimited(cs: seq<RetirementCandidate>, stream: Stream, header: RetirementSnapshot,
      authority: Authority)
    requires Live(stream) && SoundCohort(cs, header, authority)
    ensures PackagesWithin(Drawn(cs, stream, POC_V1), POC_V1.exactPackageMaxBytes)
    ensures |Drawn(cs, stream, POC_V1)| == EpisodicBudget(|PermittedIndices(cs, KeepsExact)|, POC_V1)
    ensures forall i :: 0 <= i < |Drawn(cs, stream, POC_V1)| ==>
      Drawn(cs, stream, POC_V1)[i] in cs && Permitted(Drawn(cs, stream, POC_V1)[i], KeepsExact)
  {
    hide EpisodicBudget, PartialFisherYates, SoundBody, AtomIdOf, AtomBytes;
    var population := PermittedIndices(cs, KeepsExact);
    var budget := EpisodicBudget(|population|, POC_V1);
    BudgetWithin(|population|);
    PermittedAreExact(cs, KeepsExact);
    var positions := PartialFisherYates(stream, |population|, budget);
    PositionsInRange(cs, population, positions);
    var drawn := Drawn(cs, stream, POC_V1);
    forall i | 0 <= i < |drawn| ensures drawn[i] in cs && Permitted(drawn[i], KeepsExact)
      && drawn[i].exactPackageBytes <= POC_V1.exactPackageMaxBytes
    {
      var at := population[positions[i]];
      assert at in population;
      assert drawn[i] == cs[at] && SoundCandidate(cs[at], header, authority);
    }
  }

  lemma {:induction false} BudgetWithin(population: nat)
    ensures EpisodicBudget(population, POC_V1) <= population
    ensures EpisodicBudget(population, POC_V1) <= POC_V1.episodicCountMax
    ensures population <= 800 ==> EpisodicBudget(population, POC_V1) <= 4
  {
    if population <= 800 {
      CeilCountMonotone(POC_V1.episodicRate, population, 800);
      assert CeilCount(POC_V1.episodicRate, 800) == 4;
    }
  }

  /** The draw fails exactly when the drawn packages exceed the pin budget, which takes an exact
      population of more than 800. */
  lemma {:induction false} DrawOutcome(cs: seq<RetirementCandidate>, stream: Stream, header: RetirementSnapshot,
      authority: Authority)
    requires Live(stream) && SoundCohort(cs, header, authority)
    ensures var total := TotalBytes(Drawn(cs, stream, POC_V1));
      var r := DrawWinners(cs, stream, POC_V1);
      && (total <= POC_V1.episodicPinBudgetBytes ==> r.Ok?)
      && (total > POC_V1.episodicPinBudgetBytes ==> r == Err(EpisodicBudgetExceeded(total)))
      && (|PermittedIndices(cs, KeepsExact)| <= 800 ==> total <= POC_V1.episodicPinBudgetBytes)
  {
    hide Drawn, EpisodicBudget, PackagesWithin, PermittedIndices, SoundCohort, PackageBytes, TotalBytes, Permitted,
      IndicesOf;
    SoundOneByOne(cs, header, authority);
    var drawn := Drawn(cs, stream, POC_V1);
    var count, limit := |drawn|, POC_V1.exactPackageMaxBytes;
    DrawnAreLimited(cs, stream, header, authority);
    BudgetWithin(|PermittedIndices(cs, KeepsExact)|);
    TotalWithin(drawn, limit);
    MulMonotone(count, if count <= 4 then 4 else 25, limit);
    PackagesAdd(drawn);
  }

  // ---------- the projection ----------

  lemma {:induction false} ProjectionSucceeds(cs: seq<RetirementCandidate>, decisions: seq<RetirementDecision>,
      header: RetirementSnapshot, env: Environment)
    requires |cs| == |decisions|
    requires forall i :: 0 <= i < |cs| ==> SoundCandidate(cs[i], header, env.authority)
    ensures ProjectSources(cs, decisions, env).Ok?
    ensures |ProjectSources(cs, decisions, env).value| == |cs|
    ensures forall i :: 0 <= i < |cs| ==>
      ProjectSource(cs[i], decisions[i], env) == Ok(ProjectSources(cs, decisions, env).value[i])
  {
    hide ProjectSource, SoundCandidate;
    if cs != [] {
      assert SoundCandidate(cs[0], header, env.authority);
      ProjectsOne(cs[0], decisions[0], header, env);
      ProjectionSucceeds(cs[1..], decisions[1..], header, env);
      assert forall i :: 1 <= i < |cs| ==> cs[i] == cs[1..][i - 1] && decisions[i] == decisions[1..][i - 1];
    }
  }

  lemma {:induction false} ProjectsOne(c: RetirementCandidate, decision: RetirementDecision, header: RetirementSnapshot,
      env: Environment)
    requires SoundCandidate(c, header, env.authority)
    ensures ProjectSource(c, decision, env).Ok?
  {
    hide AtomBytes, AtomIdOf, SoundBody;
  }

  // ---------- the whole plan ----------

  /** The sources of a successful plan. */
  ghost predicate Succeeds(cs: seq<RetirementCandidate>, header: RetirementSnapshot, seed: Seed, env: Environment)
    requires HaveBodies(cs) && Live(env.stream(seed)) && |cs| < TWO64 && InRange(cs, Clusters(cs, POC_V1))
  {
    && AllFit(cs, Qualifying(cs, Clusters(cs, POC_V1)), header, env.authority)
    && TotalBytes(Drawn(cs, env.stream(seed), POC_V1)) <= POC_V1.episodicPinBudgetBytes
  }

  lemma {:induction false} SortedAreSemantic(all: seq<Scored>)
    requires AllScoredSemantic(all)
    ensures AllScoredSemantic(SortBy(ScoredLeq, all))
  {
    var sorted := SortBy(ScoredLeq, all);
    MembersOfMultiset(all, sorted);
    forall i | 0 <= i < |sorted| ensures sorted[i].planned.body.payload.Semantic? {
      assert sorted[i] in sorted && sorted[i] in all;
    }
  }

  lemma {:induction false} ScoredAreSemantic(cs: seq<RetirementCandidate>, qualifying: seq<seq<nat>>,
      header: RetirementSnapshot, authority: Authority)
    requires SoundCohort(cs, header, authority) && HaveBodies(cs) && InRange(cs, qualifying)
    requires AllFit(cs, qualifying, header, authority) && forall q :: q in qualifying ==> Qualifies(Pick(cs, q))
    ensures AllScoredSemantic(AllScored(cs, qualifying, header, authority))
  {
    hide SoundCandidate, Fits, ScoreOf, ClusterBody, SortKey, SizeFor;
    forall k | 0 <= k < |qualifying|
      ensures ScoredFor(cs, qualifying[k], header, authority).planned.body.payload.Semantic?
    {
      assert qualifying[k] in qualifying;
      PickedAreSound(cs, qualifying[k], header, authority);
      ClusterBodyIsStructured(Pick(cs, qualifying[k]), header, authority);
    }
  }

  /** The semantic half: the ordered candidates are the qualifying bodies, and selecting among
      them never fails; or some qualifying body is oversize. */
  lemma {:induction false} SemanticOutcome(cs: seq<RetirementCandidate>, header: RetirementSnapshot,
      authority: Authority)
    requires SoundCohort(cs, header, authority) && HaveBodies(cs) && InRange(cs, Clusters(cs, POC_V1))
    ensures var q := Qualifying(cs, Clusters(cs, POC_V1));
      var r := SemanticCandidates(cs, header, POC_V1, authority);
      && (AllFit(cs, q, header, authority) ==>
            r == Ok(SortBy(ScoredLeq, AllScored(cs, q, header, authority))) && AllScoredSemantic(r.value))
      && (!AllFit(cs, q, header, authority) ==>
            r.Err? && exists k :: 0 <= k < |q| && OversizeError(cs, q[k], header, authority, r.error))
  {
    hide OversizeError, AllFit, ConsiderAll, SoundCohort, AllScored, AllScoredSemantic;
    var q := Qualifying(cs, Clusters(cs, POC_V1));
    ConsiderAllOutcome(cs, Clusters(cs, POC_V1), [], header, authority);
    if AllFit(cs, q, header, authority) {
      var all := AllScored(cs, q, header, authority);
      assert [] + all == all;
      ScoredAreSemantic(cs, q, header, authority);
      SortedAreSemantic(all);
    }
  }

  lemma {:induction false} SelectionSucceeds(scored: seq<Scored>, cohort: nat)
    requires AllScoredSemantic(scored)
    ensures var r := SelectFrom(scored, SemanticCountBudget(cohort, POC_V1), NOTHING, POC_V1);
      r.Ok? && AllSemantic(r.value.atoms) && Explained(r.value, SemanticCountBudget(cohort, POC_V1), POC_V1)
      && |r.value.decisions| == |scored|
  {
    hide AllScoredSemantic, Explained, SelectFrom;
    var budget := SemanticCountBudget(cohort, POC_V1);
    NothingIsExplained(budget, POC_V1);
    SelectionExplained(scored, budget, NOTHING, POC_V1);
    assert AllSemantic([]);
    SelectedAreSemantic(scored, budget, NOTHING, POC_V1);
  }

  /** The exact failure set. After the up-front checks a plan is made if and only if every
      qualifying cluster's body fits the hard limit and the drawn packages fit the pin budget;
      the error names the oversize body, or else the over-budget draw. */
  lemma {:induction false} PlanOrderedOutcome(cs: seq<RetirementCandidate>, header: RetirementSnapshot, seed: Seed,
      env: Environment)
    requires Live(env.stream(seed)) && SoundCohort(cs, header, env.authority) && HaveBodies(cs)
    requires InRange(cs, Clusters(cs, POC_V1))
    ensures var r := PlanOrdered(cs, header, POC_V1, seed, env);
      var q := Qualifying(cs, Clusters(cs, POC_V1));
      && (r.Ok? <==> Succeeds(cs, header, seed, env))
      && (r.Err? && !AllFit(cs, q, header, env.authority) ==>
            exists k :: 0 <= k < |q| && OversizeError(cs, q[k], header, env.authority, r.error))
      && (r.Err? && AllFit(cs, q, header, env.authority) ==>
            r.error == EpisodicBudgetExceeded(TotalBytes(Drawn(cs, env.stream(seed), POC_V1))))
  {
    hide OversizeError, AllFit, SoundCohort, DrawWinners, SelectFrom, Explained, Drawn, Assemble, DecideAll,
      ProjectSources, AllScored, AllScoredSemantic, Live, SemanticCandidates, SortBy, Clusters, Qualifying, TotalBytes,
      SemanticCountBudget;
    SemanticOutcome(cs, header, env.authority);
    DrawOutcome(cs, env.stream(seed), header, env.authority);
    SoundOneByOne(cs, header, env.authority);
    var found := SemanticCandidates(cs, header, POC_V1, env.authority);
    if found.Ok? {
      SelectionSucceeds(found.value, |cs|);
      var selection := SelectFrom(found.value, SemanticCountBudget(|cs|, POC_V1), NOTHING, POC_V1).value;
      var draw := DrawWinners(cs, env.stream(seed), POC_V1);
      if draw.Ok? {
        ProjectionSucceeds(cs, DecideAll(cs, draw.value.winners, selection.atoms), header, env);
      }
    }
  }

  lemma {:induction false} SoundOneByOne(cs: seq<RetirementCandidate>, header: RetirementSnapshot, authority: Authority)
    requires SoundCohort(cs, header, authority)
    ensures 0 < |cs| <= 100_000
    ensures forall i :: 0 <= i < |cs| ==> SoundCandidate(cs[i], header, authority)
  {
  }

  /** `plan_retirement` after the up-front checks, in terms of the snapshot. */
  lemma {:induction false} PlanningFailsOnlyOn(snapshot: RetirementSnapshot, policy: Policy, seed: Seed,
      env: Environment)
    requires Live(env.stream(seed)) && Admit(snapshot, policy, env).Ok?
    ensures var cs, header := Ordered(snapshot.atoms), Header(snapshot);
      var r := PlanRetirement(snapshot, policy, seed, env);
      && HaveBodies(cs) && InRange(cs, Clusters(cs, POC_V1)) && |cs| < TWO64
      && (r.Ok? <==> Succeeds(cs, header, seed, env))
      && (r.Err? ==>
            || (exists q :: q in Qualifying(cs, Clusters(cs, POC_V1))
                         && OversizeError(cs, q, header, env.authority, r.error))
            || (r.error == EpisodicBudgetExceeded(TotalBytes(Drawn(cs, env.stream(seed), POC_V1)))
                && |PermittedIndices(cs, KeepsExact)| > 800))
  {
    hide OversizeError, SoundCohort, PlanOrdered, Clusters, Qualifying, AllFit, TotalBytes, Drawn, CheckCandidates,
      Live;
    var cs, header := Ordered(snapshot.atoms), Header(snapshot);
    AdmittedIsSound(snapshot, policy, env);
    AdmittedIsSmall(snapshot, policy, env);
    SoundHaveBodies(cs, header, env.authority);
    ClustersAscend(cs, POC_V1);
    PlanOrderedOutcome(cs, header, seed, env);
    DrawOutcome(cs, env.stream(seed), header, env.authority);
    var q := Qualifying(cs, Clusters(cs, POC_V1));
    var r := PlanRetirement(snapshot, policy, seed, env);
    if r.Err? && !AllFit(cs, q, header, env.authority) {
      var k :| 0 <= k < |q| && OversizeError(cs, q[k], header, env.authority, r.error);
      assert q[k] in q;
    }
  }

  /** The parts that a successful plan is assembled from. */
  lemma {:induction false} PlanParts(snapshot: RetirementSnapshot, policy: Policy, seed: Seed, env: Environment)
    returns (scored: seq<Scored>, selection: Selection, draw: Draw, post: PostState)
    requires Live(env.stream(seed)) && PlanRetirement(snapshot, policy, seed, env).Ok?
    ensures var cs, header := Ordered(snapshot.atoms), Header(snapshot);
      && policy == POC_V1 && SoundCohort(cs, header, env.authority)
      && HaveBodies(cs) && InRange(cs, Clusters(cs, POC_V1))
      && AllFit(cs, Qualifying(cs, Clusters(cs, POC_V1)), header, env.authority)
      && scored == SortBy(ScoredLeq, AllScored(cs, Qualifying(cs, Clusters(cs, POC_V1)), header, env.authority))
      && AllScoredSemantic(scored)
      && SelectFrom(scored, SemanticCountBudget(|cs|, POC_V1), NOTHING, POC_V1) == Ok(selection)
      && Explained(selection, SemanticCountBudget(|cs|, POC_V1), POC_V1)
      && AllSemantic(selection.atoms)
      && DrawWinners(cs, env.stream(seed), POC_V1) == Ok(draw)
      && Ok(post) ==
         ProjectPostState(header.memorySpaceId, cs, DecideAll(cs, draw.winners, selection.atoms), selection.atoms, env)
      && PlanRetirement(snapshot, policy, seed, env) ==
           Ok(Assemble(cs, header, policy, seed, env, selection, draw, DecideAll(cs, draw.winners, selection.atoms),
             post))
  {
    hide OversizeError, SoundCohort, Clusters, Qualifying, AllFit, TotalBytes, Drawn, CheckCandidates, Live,
      SemanticCandidates, AllScored, AllScoredSemantic, Explained, SelectFrom, DrawWinners, ProjectPostState, Assemble,
      DecideAll, SortBy, Admit, AllSemantic, IndicesOf, SemanticCountBudget;
    var cs, header := Ordered(snapshot.atoms), Header(snapshot);
    AdmittedIsSound(snapshot, policy, env);
    SoundHaveBodies(cs, header, env.authority);
    ClustersAscend(cs, POC_V1);
    SemanticOutcome(cs, header, env.authority);
    scored := SemanticCandidates(cs, header, POC_V1, env.authority).value;
    SelectionSucceeds(scored, |cs|);
    selection := SelectFrom(scored, SemanticCountBudget(|cs|, POC_V1), NOTHING, POC_V1).value;
    SoundOneByOne(cs, header, env.authority);
    draw := DrawWinners(cs, env.stream(seed), POC_V1).value;
    post := ProjectPostState(header.memorySpaceId, cs, DecideAll(cs, draw.winners, selection.atoms), selection.atoms,
      env).value;
  }

  /** A plan that exists holds no body over the hard limit, so the disposition for such bodies
      never appears; and a cohort of at most 1,600 never runs out of bytes. */
  lemma {:induction false} DispositionsOfPlans(snapshot: RetirementSnapshot, policy: Policy, seed: Seed,
      env: Environment, i: nat)
    requires Live(env.stream(seed)) && PlanRetirement(snapshot, policy, seed, env).Ok?
    requires i < |PlanRetirement(snapshot, policy, seed, env).value.semanticDecisions|
    ensures var d := PlanRetirement(snapshot, policy, seed, env).value.semanticDecisions;
      && d[i].canonicalSizeBytes <= policy.atomHardMaxBytes
      && d[i].disposition != SkippedAtomHardLimit
      && (|snapshot.atoms| <= 1_600 ==> d[i].disposition != SkippedByteBudget)
  {
    hide PlanRetirement, SoundCohort, Clusters, Qualifying, AllScored, DrawWinners, ProjectPostState, DecideAll, SortBy,
      SelectFrom, SemanticCountBudget, IndicesOf, Explained, AllFit, AllSemantic, AllScoredSemantic, InputDigest,
      PopulationDigest, Live;
    var scored, selection, draw, post := PlanParts(snapshot, policy, seed, env);
    var cs, header := Ordered(snapshot.atoms), Header(snapshot);
    assert PlanRetirement(snapshot, policy, seed, env).value.semanticDecisions == selection.decisions;
    assert |cs| == |snapshot.atoms|;
    DispositionFacts(cs, Qualifying(cs, Clusters(cs, POC_V1)), header, env.authority, scored, selection, i);
  }

  lemma {:induction false} DispositionFacts(cs: seq<RetirementCandidate>, qualifying: seq<seq<nat>>,
      header: RetirementSnapshot, authority: Authority, scored: seq<Scored>, selection: Selection, i: nat)
    requires HaveBodies(cs) && InRange(cs, qualifying) && AllFit(cs, qualifying, header, authority)
    requires scored == SortBy(ScoredLeq, AllScored(cs, qualifying, header, authority)) && AllScoredSemantic(scored)
    requires SelectFrom(scored, SemanticCountBudget(|cs|, POC_V1), NOTHING, POC_V1) == Ok(selection)
    requires i < |selection.decisions|
    ensures selection.decisions[i].canonicalSizeBytes <= POC_V1.atomHardMaxBytes
    ensures selection.decisions[i].disposition != SkippedAtomHardLimit
    ensures |cs| <= 1_600 ==> selection.decisions[i].disposition != SkippedByteBudget
  {
    hide SemanticCountBudget, FollowsRule, SelectFrom, SortBy, AllScored, AllFit, AllScoredSemantic, InRange;
    var budget := SemanticCountBudget(|cs|, POC_V1);
    NothingIsExplained(budget, POC_V1);
    SelectionExplained(scored, budget, NOTHING, POC_V1);
    DecisionsMatch(scored, budget, NOTHING, POC_V1, i);
    SizesFit(cs, qualifying, header, authority, scored, i);
    RuleAt(selection.decisions, budget, i);
    if |cs| <= 1_600 {
      SmallCohortsFit(selection.decisions, |cs|, i);
    }
  }

  lemma {:induction false} RuleAt(decisions: seq<SemanticDecision>, countBudget: nat, i: nat)
    requires FollowsRule(decisions, countBudget, POC_V1) && i < |decisions|
    requires decisions[i].canonicalSizeBytes <= POC_V1.atomHardMaxBytes
    ensures decisions[i].disposition != SkippedAtomHardLimit
  {
  }

  lemma {:induction false} SizesFit(cs: seq<RetirementCandidate>, qualifying: seq<seq<nat>>, header: RetirementSnapshot,
      authority: Authority, scored: seq<Scored>, i: nat)
    requires HaveBodies(cs) && InRange(cs, qualifying) && AllFit(cs, qualifying, header, authority)
    requires scored == SortBy(ScoredLeq, AllScored(cs, qualifying, header, authority)) && i < |scored|
    ensures scored[i].planned.canonicalSizeBytes <= POC_V1.atomHardMaxBytes
  {
    hide ScoreOf, ClusterBody, SortKey, SizeFor, SortBy;
    var all := AllScored(cs, qualifying, header, authority);
    MembersOfMultiset(all, scored);
    assert scored[i] in scored && scored[i] in all;
    var k :| 0 <= k < |all| && all[k] == scored[i];
  }
}
