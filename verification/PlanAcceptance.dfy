/** The independent check accepts every plan that the planner returns. */
module PlanAcceptance {
  import opened Wrappers
  import opened Numbers
  import opened Sequences
  import opened Digests
  import opened Model
  import opened Validation
  import opened Lottery
  import opened Clustering
  import opened Consolidation
  import opened Plans
  import opened Cohort
  import opened SemanticSelection
  import opened EpisodicDraw
  import opened Retirement
  import opened AdmittedCohorts
  import opened GreedyBudgets
  import opened PlanOutcomes
  import opened AtomIdentity
  import opened PlanStructure

  // ---------- scored candidates are content-addressed ----------

  /** A scored candidate as the structural check sees it: valid, addressed, sized and closed over its sources. */
  ghost predicate SoundScored(s: Scored, authority: Authority) {
    && s.planned.body.payload.Semantic?
    && ValidateMemoryAtomBody(s.planned.body, POC_V1, authority).Ok?
    && AtomIdOf(s.planned.body, authority.hash) == Ok(s.planned.atomId)
    && s.planned.bodyDigest == s.planned.atomId
    && EncodedSizeBytes(s.planned.body) == Ok(s.planned.canonicalSizeBytes)
    && s.planned.canonicalSizeBytes <= POC_V1.atomHardMaxBytes
    && s.planned.body.payload.score == s.score
    && s.planned.body.contractVersion == Ascii("atom-v1")
    && |s.planned.body.payload.sourceIds| >= POC_V1.minSemanticSources
    && StrictlyIncreasing(s.planned.body.payload.sourceIds)
  }

  lemma {:induction false} VersionHolds(body: MemoryAtomBody, policy: Policy, authority: Authority)
    requires ValidateStructure(body, policy, authority).Ok?
    ensures body.contractVersion == Ascii("atom-v1")
  {
    hide ValidateEpisodeBody, ValidateSemanticBody, ValidateArtifacts, ValidateScope;
  }

  lemma {:induction false} ScoredIsSound(cs: seq<RetirementCandidate>, cluster: seq<nat>, header: RetirementSnapshot,
      authority: Authority)
    requires SoundCohort(cs, header, authority) && HaveBodies(cs)
    requires IndicesOf(cs, cluster) && StrictlyIncreasing(cluster) && Qualifies(Pick(cs, cluster))
    requires Fits(cs, cluster, header, authority)
    ensures SoundScored(ScoredFor(cs, cluster, header, authority), authority)
    ensures ScoredFor(cs, cluster, header, authority).planned.body.payload.sourceIds == IdsOf(Pick(cs, cluster))
  {
    hide ValidateMemoryAtomBody, ScoreOf, ClusterBody, EncodedSizeBytes, SoundMembers, AtomIdOf, SoundCandidate,
      ValidateStructure, StrictlyIncreasing, IndicesOf;
    var members := Pick(cs, cluster);
    PickedAreSound(cs, cluster, header, authority);
    MembersHaveBodies(members, header, authority);
    ClusterBodyIsStructured(members, header, authority);
    var body := ClusterBody(members, header, authority.policyDigest);
    ValidationIsSizeOnly(body, authority);
    ValidBodyIsAddressed(body, POC_V1, authority);
    VersionHolds(body, POC_V1, authority);
    ValidSourcesIncrease(body, POC_V1, authority);
  }

  // ---------- different clusters have different addresses ----------

  /** The canonical bytes of the consolidated bodies. */
  ghost function ConsolidatedBytes(cs: seq<RetirementCandidate>, qualifying: seq<seq<nat>>, header: RetirementSnapshot,
      authority: Authority): set<seq<byte>>
    requires HaveBodies(cs) && InRange(cs, qualifying)
  {
    set k | 0 <= k < |qualifying| && AtomBytes(BodyFor(cs, qualifying[k], header, authority)).Ok? ::
      AtomBytes(BodyFor(cs, qualifying[k], header, authority)).value
  }

  /** No two consolidated bodies of this snapshot collide under the atom hash. */
  ghost predicate NoCollisions(snapshot: RetirementSnapshot, env: Environment) {
    var cs, header := Ordered(snapshot.atoms), Header(snapshot);
    HaveBodies(cs) && InRange(cs, Clusters(cs, POC_V1)) ==>
      CollisionFree(env.authority.hash, ATOM_HASH_DOMAIN,
        ConsolidatedBytes(cs, Qualifying(cs, Clusters(cs, POC_V1)), header, env.authority))
  }

  /** Clusters in the order they were opened: their first members increase. */
  ghost predicate HeadsIncrease(clusters: seq<seq<nat>>) {
    && (forall c :: 0 <= c < |clusters| ==> clusters[c] != [])
    && forall a, b :: 0 <= a < b < |clusters| ==> clusters[a][0] < clusters[b][0]
  }

  lemma {:induction false} ClusterHeadsIncrease(linked: Link, clusters: seq<seq<nat>>)
    requires WellFormed(linked, clusters)
    ensures HeadsIncrease(clusters)
  {
    forall a, b | 0 <= a < b < |clusters| ensures clusters[a][0] < clusters[b][0] {
      var x := clusters[b][0];
      assert x in clusters[b] && KeptOut(linked, x, clusters[a]);
      var m :| m in clusters[a] && m < x && !linked(x, m);
      var i :| 0 <= i < |clusters[a]| && clusters[a][i] == m;
      assert i > 0 ==> clusters[a][0] < clusters[a][i];
    }
  }

  lemma {:induction false} QualifyingHeadsIncrease(cs: seq<RetirementCandidate>, clusters: seq<seq<nat>>)
    requires InRange(cs, clusters) && HeadsIncrease(clusters)
    ensures HeadsIncrease(Qualifying(cs, clusters))
  {
    hide Qualifies, IndicesOf, StrictlyIncreasing, Pick;
    if clusters != [] {
      var head, tail := clusters[0], clusters[1..];
      assert forall i :: 0 <= i < |tail| ==> tail[i] == clusters[i + 1];
      QualifyingHeadsIncrease(cs, tail);
      var rest := Qualifying(cs, tail);
      forall k | 0 <= k < |rest| ensures rest[k] != [] && head[0] < rest[k][0] {
        assert rest[k] in rest && rest[k] in tail;
        var i :| 0 <= i < |tail| && tail[i] == rest[k];
        assert clusters[i + 1] == rest[k];
      }
    }
  }

  /** Different qualifying clusters yield different addresses. */
  lemma {:induction false} AddressesDiffer(cs: seq<RetirementCandidate>, qualifying: seq<seq<nat>>,
      header: RetirementSnapshot, authority: Authority, a: nat, b: nat)
    requires SoundCohort(cs, header, authority) && HaveBodies(cs)
    requires InRange(cs, qualifying) && HeadsIncrease(qualifying)
    requires AllFit(cs, qualifying, header, authority) && forall q :: q in qualifying ==> Qualifies(Pick(cs, q))
    requires CollisionFree(authority.hash, ATOM_HASH_DOMAIN, ConsolidatedBytes(cs, qualifying, header, authority))
    requires a < b < |qualifying|
    ensures ScoredFor(cs, qualifying[a], header, authority).planned.atomId !=
      ScoredFor(cs, qualifying[b], header, authority).planned.atomId
  {
    hide ValidateMemoryAtomBody, ScoreOf, EncodedSizeBytes, AtomBytes, BodyFor, Qualifies, ScoredFor, SoundScored;
    var qa, qb := qualifying[a], qualifying[b];
    assert qa in qualifying && qb in qualifying;
    assert Fits(cs, qa, header, authority) && Fits(cs, qb, header, authority);
    SourcesDiffer(cs, qa, qb, header, authority);
    SourcesAddressed(cs, qa, header, authority);
    SourcesAddressed(cs, qb, header, authority);
    var ba, bb := BodyFor(cs, qa, header, authority), BodyFor(cs, qb, header, authority);
    if AtomBytes(ba) == AtomBytes(bb) {
      BytesDetermineSources(ba, bb);
    } else {
      assert AtomBytes(ba).value in ConsolidatedBytes(cs, qualifying, header, authority);
      assert AtomBytes(bb).value in ConsolidatedBytes(cs, qualifying, header, authority);
    }
  }

  lemma {:induction false} SourcesAddressed(cs: seq<RetirementCandidate>, cluster: seq<nat>, header: RetirementSnapshot,
      authority: Authority)
    requires SoundCohort(cs, header, authority) && HaveBodies(cs)
    requires IndicesOf(cs, cluster) && StrictlyIncreasing(cluster) && Qualifies(Pick(cs, cluster))
    requires Fits(cs, cluster, header, authority)
    ensures var body := BodyFor(cs, cluster, header, authority);
      && body.payload.Semantic? && body.payload.sourceIds == IdsOf(Pick(cs, cluster))
      && AtomBytes(body).Ok?
      && ScoredFor(cs, cluster, header, authority).planned.atomId ==
           authority.hash(ATOM_HASH_DOMAIN, AtomBytes(body).value)
  {
    hide ValidateMemoryAtomBody, ScoreOf, ClusterBody, EncodedSizeBytes, AtomBytes, SoundCohort, IndicesOf, Qualifies;
    ScoredIsSound(cs, cluster, header, authority);
  }

  lemma {:induction false} SourcesDiffer(cs: seq<RetirementCandidate>, qa: seq<nat>, qb: seq<nat>,
      header: RetirementSnapshot, authority: Authority)
    requires SoundCohort(cs, header, authority) && IndicesOf(cs, qa) && IndicesOf(cs, qb)
    requires qa != [] && qb != [] && qa[0] < qb[0]
    ensures IdsOf(Pick(cs, qa)) != IdsOf(Pick(cs, qb))
  {
    hide SoundCandidate;
    assert IdsOf(Pick(cs, qa))[0] == cs[qa[0]].atomId;
    assert IdsOf(Pick(cs, qb))[0] == cs[qb[0]].atomId;
  }

  // ---------- the ordered candidates ----------

  /** All that the structural check needs of the ordered candidates. */
  ghost predicate SoundOrder(scored: seq<Scored>, authority: Authority) {
    && (forall i :: 0 <= i < |scored| ==> SoundScored(scored[i], authority))
    && (forall i, j :: 0 <= i < j < |scored| ==> Before(scored[i], scored[j]))
    && (forall i, j :: 0 <= i < j < |scored| ==> scored[i].planned.atomId != scored[j].planned.atomId)
  }

  predicate Before(a: Scored, b: Scored) {
    a.score.total > b.score.total || (a.score.total == b.score.total && a.planned.atomId < b.planned.atomId)
  }

  lemma {:induction false} SortIsSoundOrder(all: seq<Scored>, authority: Authority)
    requires forall i :: 0 <= i < |all| ==> SoundScored(all[i], authority)
    requires forall i, j :: 0 <= i < j < |all| ==> all[i].planned.atomId != all[j].planned.atomId
    ensures SoundOrder(SortBy(ScoredLeq, all), authority)
  {
    hide SoundScored, SortBy;
    var sorted := SortBy(ScoredLeq, all);
    assert TotalPreorder(ScoredLeq);
    SortSorts(ScoredLeq, all);
    MembersOfMultiset(all, sorted);
    assert Distinct(all);
    forall i | 0 <= i < |sorted| ensures SoundScored(sorted[i], authority) {
      assert sorted[i] in sorted && sorted[i] in all;
    }
    forall i, j | 0 <= i < j < |sorted|
      ensures sorted[i].planned.atomId != sorted[j].planned.atomId && Before(sorted[i], sorted[j])
    {
      assert sorted[i] in all && sorted[j] in all;
      assert ScoredLeq(sorted[i], sorted[j]) && sorted[i] != sorted[j];
      var a :| 0 <= a < |all| && all[a] == sorted[i];
      var b :| 0 <= b < |all| && all[b] == sorted[j];
      assert a != b;
    }
  }

  lemma {:induction false} PlannedOrderIsSound(cs: seq<RetirementCandidate>, clusters: seq<seq<nat>>,
      header: RetirementSnapshot, authority: Authority)
    requires SoundCohort(cs, header, authority) && HaveBodies(cs) && InRange(cs, clusters) && HeadsIncrease(clusters)
    requires AllFit(cs, Qualifying(cs, clusters), header, authority)
    requires CollisionFree(authority.hash, ATOM_HASH_DOMAIN,
                           ConsolidatedBytes(cs, Qualifying(cs, clusters), header, authority))
    ensures SoundOrder(SortBy(ScoredLeq, AllScored(cs, Qualifying(cs, clusters), header, authority)), authority)
  {
    hide SoundScored, ScoredFor, Qualifies, ConsolidatedBytes, CollisionFree, SoundCohort, SortBy, SoundOrder;
    var q := Qualifying(cs, clusters);
    var all := AllScored(cs, q, header, authority);
    QualifyingHeadsIncrease(cs, clusters);
    forall i | 0 <= i < |all| ensures SoundScored(all[i], authority) {
      assert q[i] in q && Fits(cs, q[i], header, authority);
      ScoredIsSound(cs, q[i], header, authority);
    }
    forall i, j | 0 <= i < j < |all| ensures all[i].planned.atomId != all[j].planned.atomId {
      AddressesDiffer(cs, q, header, authority, i, j);
    }
    SortIsSoundOrder(all, authority);
  }

  // ---------- semantic evidence ----------

  lemma {:induction false} AtomsAccepted(atoms: seq<PlannedSemantic>, seen: set<AtomId>, authority: Authority)
    requires forall i :: 0 <= i < |atoms| ==>
      CheckSemanticAtom(atoms[i], POC_V1, authority).Ok? && atoms[i].atomId !in seen
    requires forall i, j :: 0 <= i < j < |atoms| ==> atoms[i].atomId != atoms[j].atomId
    ensures CheckSemanticAtoms(atoms, seen, POC_V1, authority) == Ok(())
  {
    hide CheckSemanticAtom;
    if atoms != [] {
      assert CheckSemanticAtom(atoms[0], POC_V1, authority).Ok?;
      AtomsAccepted(atoms[1..], seen + {atoms[0].atomId}, authority);
    }
  }

  lemma {:induction false} SoundAtomAccepted(s: Scored, authority: Authority)
    requires SoundScored(s, authority)
    ensures CheckSemanticAtom(s.planned, POC_V1, authority).Ok?
  {
    hide ValidateMemoryAtomBody, AtomIdOf, EncodedSizeBytes;
  }

  /** The selected atoms are those of some of the scored candidates, in order. */
  ghost predicate DrawnFrom(atoms: seq<PlannedSemantic>, scored: seq<Scored>, positions: seq<nat>) {
    && |positions| == |atoms| && StrictlyIncreasing(positions)
    && forall k :: 0 <= k < |atoms| ==> positions[k] < |scored| && atoms[k] == scored[positions[k]].planned
  }

  lemma {:induction false} SelectionDrawsInOrder(scored: seq<Scored>, from: nat, countBudget: nat, before: Selection,
      positions: seq<nat>)
    returns (all: seq<nat>)
    requires from <= |scored| && SelectFrom(scored[from..], countBudget, before, POC_V1).Ok?
    requires DrawnFrom(before.atoms, scored, positions) && forall p :: p in positions ==> p < from
    ensures DrawnFrom(SelectFrom(scored[from..], countBudget, before, POC_V1).value.atoms, scored, all)
    decreases |scored| - from
  {
    hide Dispose;
    if from == |scored| {
      all := positions;
    } else {
      var next := SelectOne(scored[from], countBudget, before, POC_V1).value;
      assert scored[from..][1..] == scored[from + 1..] && scored[from..][0] == scored[from];
      if next.atoms == before.atoms {
        all := SelectionDrawsInOrder(scored, from + 1, countBudget, next, positions);
      } else {
        AppendIncreasing(positions, from);
        all := SelectionDrawsInOrder(scored, from + 1, countBudget, next, positions + [from]);
      }
    }
  }

  lemma {:induction false} SelectedAtomsAccepted(scored: seq<Scored>, countBudget: nat, authority: Authority)
    requires SoundOrder(scored, authority) && SelectFrom(scored, countBudget, NOTHING, POC_V1).Ok?
    ensures CheckSemanticAtoms(SelectFrom(scored, countBudget, NOTHING, POC_V1).value.atoms, {}, POC_V1, authority) ==
      Ok(())
  {
    hide SoundScored, CheckSemanticAtom, SelectFrom, Before;
    assert scored[0..] == scored;
    var positions := SelectionDrawsInOrder(scored, 0, countBudget, NOTHING, []);
    var atoms := SelectFrom(scored, countBudget, NOTHING, POC_V1).value.atoms;
    forall k | 0 <= k < |atoms| ensures CheckSemanticAtom(atoms[k], POC_V1, authority).Ok? {
      SoundAtomAccepted(scored[positions[k]], authority);
    }
    AtomsAccepted(atoms, {}, authority);
  }

  lemma {:induction false} CandidateIdsAccepted(decisions: seq<SemanticDecision>, seen: set<AtomId>)
    requires forall i :: 0 <= i < |decisions| ==> decisions[i].atomId !in seen
    requires forall i :: 0 <= i < |decisions| ==>
      |decisions[i].sourceIds| >= POC_V1.minSemanticSources && StrictlyIncreasing(decisions[i].sourceIds)
    requires forall i, j :: 0 <= i < j < |decisions| ==> decisions[i].atomId != decisions[j].atomId
    ensures CheckCandidateIds(decisions, seen, POC_V1) == Ok(())
  {
    if decisions != [] {
      StepsIncrease(decisions[0].sourceIds);
      CandidateIdsAccepted(decisions[1..], seen + {decisions[0].atomId});
    }
  }

  lemma {:induction false} ExpectedIsDeserved(size: u64, count: nat, bytes: u64, countBudget: nat, policy: Policy)
    requires bytes + size < TWO64
    ensures ExpectedDisposition(size, count, bytes, countBudget, policy) ==
      Ok((Deserved(size, count, bytes, countBudget, policy), bytes + size))
  {
  }

  /** The structural check's order of tests agrees with the planner's: the replay from any point of the
      selection loop accepts what the loop goes on to decide. */
  lemma {:induction false} ReplayAccepts(scored: seq<Scored>, countBudget: nat, before: Selection, authority: Authority)
    requires Explained(before, countBudget, POC_V1)
    requires forall i :: 0 <= i < |scored| ==> SoundScored(scored[i], authority)
    requires AllScoredSemantic(scored)
    ensures SelectFrom(scored, countBudget, before, POC_V1).Ok?
    ensures var after := SelectFrom(scored, countBudget, before, POC_V1).value;
      && |before.decisions| <= |after.decisions|
      && Ok(()) ==
           Replay(after.decisions[|before.decisions|..], after.atoms, countBudget, |before.atoms|, before.bytes, POC_V1)
  {
    SelectionExplained(scored, countBudget, before, POC_V1);
    hide SoundScored, Explained, SelectOne, AllScoredSemantic;
    if scored != [] {
      var next := SelectOne(scored[0], countBudget, before, POC_V1).value;
      StepExplained(scored[0], countBudget, before, POC_V1);
      ReplayAccepts(scored[1..], countBudget, next, authority);
      SelectionExplained(scored[1..], countBudget, next, POC_V1);
      var after := SelectFrom(scored, countBudget, before, POC_V1).value;
      var rest := after.decisions[|before.decisions|..];
      assert rest[1..] == after.decisions[|next.decisions|..];
      assert rest[0] == next.decisions[|before.decisions|];
      ReplayStep(scored[0], countBudget, before, rest, after.atoms, authority);
    } else {
      assert before.decisions[|before.decisions|..] == [];
    }
  }

  lemma {:induction false} ReplayStep(scored: Scored, countBudget: nat, before: Selection, rest: seq<SemanticDecision>,
      atoms: seq<PlannedSemantic>, authority: Authority)
    requires Explained(before, countBudget, POC_V1) && SoundScored(scored, authority) && rest != []
    requires SelectOne(scored, countBudget, before, POC_V1).Ok?
    requires var next := SelectOne(scored, countBudget, before, POC_V1).value;
      && rest[0] == next.decisions[|before.decisions|] && next.atoms <= atoms
      && Replay(rest[1..], atoms, countBudget, |next.atoms|, next.bytes, POC_V1) == Ok(())
    ensures Replay(rest, atoms, countBudget, |before.atoms|, before.bytes, POC_V1) == Ok(())
  {
    hide ValidateMemoryAtomBody, AtomIdOf, EncodedSizeBytes, FollowsRule, SelectedCount, SelectedBytes, SizeOfAtoms,
      StrictlyIncreasing;
    ExpectedIsDeserved(scored.planned.canonicalSizeBytes, |before.atoms|, before.bytes, countBudget, POC_V1);
    var next := SelectOne(scored, countBudget, before, POC_V1).value;
    if rest[0].disposition == Selected {
      assert atoms[|before.atoms|] == next.atoms[|before.atoms|] == scored.planned;
    }
  }

  lemma {:induction false} EvidenceAccepted(scored: seq<Scored>, countBudget: nat, authority: Authority)
    requires SoundOrder(scored, authority) && AllScoredSemantic(scored)
    ensures SelectFrom(scored, countBudget, NOTHING, POC_V1).Ok?
    ensures var s := SelectFrom(scored, countBudget, NOTHING, POC_V1).value;
      CheckSemanticEvidence(s.decisions, s.atoms, countBudget, POC_V1, authority) == Ok(())
  {
    hide SelectFrom, Explained, CheckSemanticAtoms, CheckCandidateIds, Replay, AllScoredSemantic;
    NothingIsExplained(countBudget, POC_V1);
    SelectionExplained(scored, countBudget, NOTHING, POC_V1);
    SelectedAtomsAccepted(scored, countBudget, authority);
    ReplayAccepts(scored, countBudget, NOTHING, authority);
    var s := SelectFrom(scored, countBudget, NOTHING, POC_V1).value;
    assert s.decisions[0..] == s.decisions;
    EvidenceOrdered(scored, countBudget, s.decisions, authority);
  }

  lemma {:induction false} EvidenceOrdered(scored: seq<Scored>, countBudget: nat, decisions: seq<SemanticDecision>,
      authority: Authority)
    requires SoundOrder(scored, authority) && AllScoredSemantic(scored)
    requires SelectFrom(scored, countBudget, NOTHING, POC_V1).Ok?
    requires decisions == SelectFrom(scored, countBudget, NOTHING, POC_V1).value.decisions
    ensures CheckCandidateIds(decisions, {}, POC_V1) == Ok(())
    ensures forall i :: 0 <= i < |decisions| - 1 ==> InScoreOrder(decisions[i], decisions[i + 1])
  {
    hide SelectFrom, Explained, ValidateMemoryAtomBody, AtomIdOf, EncodedSizeBytes, CheckCandidateIds,
      StrictlyIncreasing;
    NothingIsExplained(countBudget, POC_V1);
    SelectionExplained(scored, countBudget, NOTHING, POC_V1);
    assert |decisions| == |scored|;
    forall i | 0 <= i < |decisions| ensures decisions[i] == Judge(scored[i], decisions[i].disposition) {
      DecisionsMatch(scored, countBudget, NOTHING, POC_V1, i);
    }
    forall i | 0 <= i < |decisions| ensures |decisions[i].sourceIds| >= POC_V1.minSemanticSources
      && StrictlyIncreasing(decisions[i].sourceIds)
    {
      assert SoundScored(scored[i], authority);
    }
    CandidateIdsAccepted(decisions, {});
  }

  // ---------- winners ----------

  /** The draw, as the structural check needs it: winners in strict order, exactly as many as the budget,
      and every one a candidate that may be kept exactly. */
  ghost predicate SoundDraw(cs: seq<RetirementCandidate>, draw: Draw) {
    && StrictlyIncreasing(draw.winners)
    && |draw.winners| == draw.budget == EpisodicBudget(|draw.population|, POC_V1)
    && draw.bytes <= POC_V1.episodicPinBudgetBytes
    && forall w :: w in draw.winners ==>
         exists i :: 0 <= i < |cs| && cs[i].atomId == w && Permitted(cs[i], KeepsExact)
  }

  lemma {:induction false} SortedDistinctIncrease(s: seq<Digest>)
    requires Distinct(s)
    ensures StrictlyIncreasing(SortBy(DigestLeq, s))
  {
    hide SortBy;
    var sorted := SortBy(DigestLeq, s);
    assert TotalPreorder(DigestLeq);
    SortSorts(DigestLeq, s);
    MembersOfMultiset(s, sorted);
    forall i, j | 0 <= i < j < |sorted| ensures sorted[i] < sorted[j] {
      assert DigestLeq(sorted[i], sorted[j]) && sorted[i] != sorted[j];
    }
  }

  /** Distinct positions of the population draw distinct candidates. */
  lemma {:induction false} DrawnIdsDistinct(cs: seq<RetirementCandidate>, stream: Stream)
    requires Live(stream) && |cs| < TWO64
    requires forall i, j :: 0 <= i < j < |cs| ==> cs[i].atomId < cs[j].atomId
    ensures Distinct(Map(IdOf, Drawn(cs, stream, POC_V1)))
  {
    hide PartialFisherYates, EpisodicBudget, PermittedIndices;
    var population := PermittedIndices(cs, KeepsExact);
    var positions := PartialFisherYates(stream, |population|, EpisodicBudget(|population|, POC_V1));
    PermittedAreExact(cs, KeepsExact);
    PositionsInRange(cs, population, positions);
    var pulled := Pull(population, positions);
    assert Drawn(cs, stream, POC_V1) == Pick(cs, pulled);
    forall i, j | 0 <= i < j < |pulled| ensures cs[pulled[i]].atomId != cs[pulled[j]].atomId {
      var a, b := positions[i], positions[j];
      assert a != b;
      assert if a < b then population[a] < population[b] else population[b] < population[a];
    }
  }

  lemma {:induction false} DrawIsSound(cs: seq<RetirementCandidate>, stream: Stream, header: RetirementSnapshot,
      authority: Authority)
    requires Live(stream) && SoundCohort(cs, header, authority) && DrawWinners(cs, stream, POC_V1).Ok?
    ensures SoundDraw(cs, DrawWinners(cs, stream, POC_V1).value)
  {
    hide Drawn, SoundCandidate, EpisodicBudget, PermittedIndices, SortBy, Distinct, StrictlyIncreasing, Permitted;
    var drawn := Drawn(cs, stream, POC_V1);
    var ids := Map(IdOf, drawn);
    var draw := DrawWinners(cs, stream, POC_V1).value;
    DrawnAreLimited(cs, stream, header, authority);
    DrawnIdsDistinct(cs, stream);
    SortedDistinctIncrease(ids);
    assert draw.winners == SortBy(DigestLeq, ids);
    MembersOfMultiset(ids, draw.winners);
    forall w | w in draw.winners
      ensures exists i :: 0 <= i < |cs| && cs[i].atomId == w && Permitted(cs[i], KeepsExact)
    {
      var k :| 0 <= k < |ids| && ids[k] == w;
      assert drawn[k] in cs;
      var i :| 0 <= i < |cs| && cs[i] == drawn[k];
    }
  }

  /** The retained decisions are exactly the winners. */
  lemma {:induction false} RetainedAreWinners(cs: seq<RetirementCandidate>, draw: Draw, atoms: seq<PlannedSemantic>)
    requires SoundDraw(cs, draw) && AllSemantic(atoms)
    ensures AsSet(draw.winners) == RetainedIds(DecideAll(cs, draw.winners, atoms))
  {
    hide SemanticIdsFor, SortBy, StrictlyIncreasing, Permitted, EpisodicBudget;
    var decisions := DecideAll(cs, draw.winners, atoms);
    forall w | w in AsSet(draw.winners) ensures w in RetainedIds(decisions) {
      var i :| 0 <= i < |cs| && cs[i].atomId == w && Permitted(cs[i], KeepsExact);
      assert decisions[i] in decisions && decisions[i].atomId == w && decisions[i].exactRetained;
    }
    forall w | w in RetainedIds(decisions) ensures w in AsSet(draw.winners) {
      var d :| d in decisions && d.exactRetained && d.atomId == w;
      var i :| 0 <= i < |decisions| && decisions[i] == d;
    }
  }

  // ---------- the projected state ----------

  lemma {:induction false} SourceAccepted(c: RetirementCandidate, decision: RetirementDecision,
      header: RetirementSnapshot, winners: set<AtomId>, semanticIds: seq<AtomId>, env: Environment)
    requires SoundCandidate(c, header, env.authority) && decision == Decide(c, winners, semanticIds)
    requires c.atomId in winners ==> Permitted(c, KeepsExact)
    ensures ProjectSource(c, decision, env).Ok?
    ensures SourceCloses(ProjectSource(c, decision, env).value, decision, POC_V1)
  {
    hide AtomBytes, AtomIdOf, SortBy, RetainedArtifactDigests;
  }

  lemma {:induction false} SourcesAccepted(cs: seq<RetirementCandidate>, draw: Draw, atoms: seq<PlannedSemantic>,
      header: RetirementSnapshot, env: Environment, i: nat)
    requires SoundCohort(cs, header, env.authority) && SoundDraw(cs, draw) && AllSemantic(atoms) && i < |cs|
    ensures var decisions := DecideAll(cs, draw.winners, atoms);
      && ProjectSource(cs[i], decisions[i], env).Ok?
      && SourceCloses(ProjectSource(cs[i], decisions[i], env).value, decisions[i], POC_V1)
  {
    hide SoundCandidate, Decide, ProjectSource, SourceCloses, SemanticIdsFor, StrictlyIncreasing, Permitted,
      EpisodicBudget;
    if cs[i].atomId in draw.winners {
      var k :| 0 <= k < |cs| && cs[k].atomId == cs[i].atomId && Permitted(cs[k], KeepsExact);
      assert k == i;
    }
    SourceAccepted(cs[i], DecideAll(cs, draw.winners, atoms)[i], header, AsSet(draw.winners),
      SemanticIdsFor(atoms, cs[i].atomId), env);
  }

  lemma {:induction false} SemanticAccepted(semantic: PlannedSemantic, env: Environment)
    ensures SemanticCloses(ProjectSemantic(semantic, env), semantic, env)
  {
  }

  lemma {:induction false} PostStateAccepted(plan: RetirementPlan, cs: seq<RetirementCandidate>, draw: Draw,
      header: RetirementSnapshot, env: Environment)
    requires SoundCohort(cs, header, env.authority) && SoundDraw(cs, draw) && AllSemantic(plan.semanticAtoms)
    requires plan.decisions == DecideAll(cs, draw.winners, plan.semanticAtoms)
    requires plan.memorySpaceId == header.memorySpaceId
    requires ProjectPostState(header.memorySpaceId, cs, plan.decisions, plan.semanticAtoms, env) ==
      Ok(plan.projectedPostState)
    ensures VerifyPostState(plan, POC_V1, env) == Ok(())
  {
    hide SoundCandidate, SoundDraw, DecideAll, ProjectSource, ProjectSources, SourceCloses, SemanticCloses,
      ProjectSemantic;
    SoundOneByOne(cs, header, env.authority);
    ProjectionSucceeds(cs, plan.decisions, header, env);
    var post := plan.projectedPostState;
    forall i | 0 <= i < |plan.decisions| ensures SourceCloses(post.sourceAtoms[i], plan.decisions[i], POC_V1) {
      SourcesAccepted(cs, draw, plan.semanticAtoms, header, env, i);
    }
    forall i | 0 <= i < |plan.semanticAtoms| ensures SemanticCloses(post.semanticAtoms[i], plan.semanticAtoms[i], env) {
      SemanticAccepted(plan.semanticAtoms[i], env);
    }
  }

  // ---------- budgets ----------

  lemma {:induction false} TotalIsChecked(atoms: seq<PlannedSemantic>)
    requires SizeOfAtoms(atoms) < TWO64
    ensures SemanticBytesTotal(atoms) == Ok(SizeOfAtoms(atoms))
  {
    if atoms != [] {
      TotalIsChecked(atoms[..|atoms| - 1]);
    }
  }

  lemma {:induction false} BudgetsAccepted(plan: RetirementPlan, cs: seq<RetirementCandidate>, selection: Selection,
      draw: Draw)
    requires SoundDraw(cs, draw) && AllSemantic(selection.atoms)
    requires Explained(selection, SemanticCountBudget(|cs|, POC_V1), POC_V1)
    requires plan.decisions == DecideAll(cs, draw.winners, selection.atoms)
    requires plan.semanticAtoms == selection.atoms && plan.semanticBodyBytes == selection.bytes
    requires plan.semanticCountBudget == SemanticCountBudget(|cs|, POC_V1)
    requires plan.episodicWinners == draw.winners && plan.episodicWinnerBudget == draw.budget
    requires plan.episodicPopulationCount == |draw.population| && plan.episodicWinnerBytes == draw.bytes
    ensures CheckBudgets(plan, POC_V1) == Ok(())
  {
    RetainedAreWinners(cs, draw, selection.atoms);
    hide DecideAll, FollowsRule, SelectedCount, SelectedBytes, SizeOfAtoms, Permitted, RetainedIds, AsSet;
    TotalIsChecked(selection.atoms);
    StepsIncrease(draw.winners);
  }

  // ---------- the main theorem ----------

  /** Every plan that the planner returns is accepted by the independent check, provided the
      consolidated bodies of the snapshot do not collide under the atom hash. */
  lemma {:induction false} PlansAreAccepted(snapshot: RetirementSnapshot, policy: Policy, seed: Seed, env: Environment)
    requires Live(env.stream(seed)) && PlanRetirement(snapshot, policy, seed, env).Ok?
    requires NoCollisions(snapshot, env)
    ensures VerifyPlanStructure(PlanRetirement(snapshot, policy, seed, env).value, env) == Ok(())
  {
    hide PlanRetirement, SoundCohort, Clusters, Qualifying, AllScored, AllScoredSemantic, DrawWinners, ProjectPostState,
      DecideAll, SelectFrom, SortBy, Explained, AllSemantic, SoundOrder, SoundDraw, CheckSemanticEvidence, CheckBudgets,
      VerifyPostState, IndicesOf, InputDigest, PopulationDigest, SemanticCountBudget, HeadsIncrease, CollisionFree,
      ConsolidatedBytes, AllFit, Live;
    var scored, selection, draw, post := PlanParts(snapshot, policy, seed, env);
    var cs, header := Ordered(snapshot.atoms), Header(snapshot);
    var plan := PlanRetirement(snapshot, policy, seed, env).value;
    OpenedInOrder(cs);
    PlannedOrderIsSound(cs, Clusters(cs, POC_V1), header, env.authority);
    EvidenceAccepted(scored, SemanticCountBudget(|cs|, POC_V1), env.authority);
    SoundOneByOne(cs, header, env.authority);
    DrawIsSound(cs, env.stream(seed), header, env.authority);
    PostStateAccepted(plan, cs, draw, header, env);
    BudgetsAccepted(plan, cs, selection, draw);
    DecisionsIncrease(cs, draw.winners, selection.atoms, header, env.authority);
  }

  lemma {:induction false} OpenedInOrder(cs: seq<RetirementCandidate>)
    ensures HeadsIncrease(Clusters(cs, POC_V1))
  {
    ClustersAscend(cs, POC_V1);
    ClusterHeadsIncrease(Linked(cs, POC_V1), Clusters(cs, POC_V1));
  }

  lemma {:induction false} DecisionsIncrease(cs: seq<RetirementCandidate>, winners: seq<AtomId>,
      atoms: seq<PlannedSemantic>, header: RetirementSnapshot, authority: Authority)
    requires SoundCohort(cs, header, authority) && AllSemantic(atoms)
    ensures var decisions := DecideAll(cs, winners, atoms);
      forall i :: 0 <= i < |decisions| - 1 ==> decisions[i].atomId < decisions[i + 1].atomId
  {
    hide SoundCandidate, SemanticIdsFor, SortBy;
  }
}
