/** The size of a consolidated body: every source costs the same, so a large enough cluster is
    over the hard limit whatever its sources agree on. */
module SemanticSizes {
  import opened Wrappers
  import opened Numbers
  import opened Sequences
  import opened Digests
  import opened Canonical
  import opened CanonicalSize
  import opened Model
  import opened ModelValues
  import opened Validation
  import opened Lottery
  import opened EpisodeSizes
  import opened Similarity
  import opened Clustering
  import opened Consensus
  import opened Consolidation
  import opened Fixed
  import opened Plans
  import opened Cohort
  import opened SemanticSelection
  import opened Retirement
  import opened AdmittedCohorts
  import opened PlanOutcomes

  /** What each source adds to the four places that name it: the source list, the source digests,
      the provenance and the relations. */
  const BYTES_PER_SOURCE: nat := 81 + 153 + 81 + 153

  /** The same body with no source named anywhere. */
  function WithoutSources(b: MemoryAtomBody): MemoryAtomBody
    requires b.payload.Semantic?
  {
    b.(relations := [],
       provenance := b.provenance.(sourceEventDigests := []),
       payload := b.payload.(sourceIds := [], sourceBodyDigests := []))
  }

  /** Every place that names sources names exactly these. */
  ghost predicate NamesSources(b: MemoryAtomBody, sources: seq<AtomId>) {
    && b.payload.Semantic?
    && b.payload.sourceIds == sources
    && b.payload.sourceBodyDigests == Map(SelfDigest, sources)
    && b.provenance.sourceEventDigests == sources
    && b.relations == Map(Derived, sources)
  }

  lemma {:induction false} DerivedRelationSize(source: AtomId)
    ensures Size(RelationValue(Derived(source))) == 145
  {
    var e := RelationValue(Derived(source)).entries;
    TwoEntries(e[0], e[1]);
  }

  lemma {:induction false} DerivedListSize(sources: seq<AtomId>)
    ensures SizeItems(Map(RelationValue, Map(Derived, sources))) == 153 * |sources|
  {
    if sources != [] {
      DerivedListSize(sources[1..]);
      DerivedRelationSize(sources[0]);
      assert Map(RelationValue, Map(Derived, sources))[1..] == Map(RelationValue, Map(Derived, sources[1..]));
    }
  }

  lemma {:induction false} SelfDigestsSize(sources: seq<AtomId>)
    ensures SizeEntries(Map(SourceDigestEntry, Map(SelfDigest, sources))) == 153 * |sources|
  {
    if sources != [] {
      SelfDigestsSize(sources[1..]);
      assert Map(SourceDigestEntry, Map(SelfDigest, sources))[1..] ==
        Map(SourceDigestEntry, Map(SelfDigest, sources[1..]));
    }
  }

  lemma {:induction false} PayloadSize(p: MemoryPayload)
    requires p.Semantic?
    ensures Size(PayloadValue(p)) == Size(PayloadValue(p.(sourceIds := [], sourceBodyDigests := [])))
      + SizeItems(Map(DigestValue, p.sourceIds)) + SizeEntries(Map(SourceDigestEntry, p.sourceBodyDigests))
  {
    var none := p.(sourceIds := [], sourceBodyDigests := []);
    DataSize(p);
    DataSize(none);
    var a, b := PayloadValue(p).entries, PayloadValue(none).entries;
    TwoEntries(a[0], a[1]);
    TwoEntries(b[0], b[1]);
  }

  /** The six entries of the payload data; the first two hold the sources. */
  lemma {:induction false} DataSize(p: MemoryPayload)
    requires p.Semantic?
    ensures var data := PayloadValue(p).entries[1].value;
      var e := data.entries;
      && |e| == 6 && data.Object?
      && Size(data) ==
           88 + SizeItems(Map(DigestValue, p.sourceIds)) + SizeEntries(Map(SourceDigestEntry, p.sourceBodyDigests))
                       + EntrySize(e[2]) + EntrySize(e[3]) + EntrySize(e[4]) + EntrySize(e[5])
  {
    var e := PayloadValue(p).entries[1].value.entries;
    TwoEntries(e[0], e[1]);
    FourEntries(e[2], e[3], e[4], e[5]);
    assert e == [e[0], e[1]] + [e[2], e[3], e[4], e[5]];
    SizeEntriesConcat([e[0], e[1]], [e[2], e[3], e[4], e[5]]);
  }

  /** A consolidated body costs 468 bytes per source on top of the same body without sources. */
  lemma {:induction false} SemanticSizeIsAdditive(b: MemoryAtomBody, sources: seq<AtomId>)
    requires NamesSources(b, sources)
    ensures Size(BodyValue(b)) == Size(BodyValue(WithoutSources(b))) + BYTES_PER_SOURCE * |sources|
  {
    hide FixedEntries, RecordEntries, ClosureEntries, BodyValue;
    var none := WithoutSources(b);
    SameOutsideClosure(b);
    BodySizeParts(b);
    BodySizeParts(none);
    ClosureSize(b, sources);
  }

  lemma {:induction false} SameOutsideClosure(b: MemoryAtomBody)
    requires b.payload.Semantic?
    ensures FixedEntries(WithoutSources(b)) == FixedEntries(b)
    ensures RecordEntries(WithoutSources(b)) == RecordEntries(b)
  {
    var none := WithoutSources(b);
    assert HeadEntries(none) == HeadEntries(b) && StateEntries(none) == StateEntries(b);
    assert KeyEntries(none) == KeyEntries(b) && RetentionEntries(none) == RetentionEntries(b);
  }

  lemma {:induction false} BodySizeParts(b: MemoryAtomBody)
    ensures Size(BodyValue(b)) ==
      9 + SizeEntries(FixedEntries(b)) + SizeEntries(RecordEntries(b)) + SizeEntries(ClosureEntries(b))
  {
    hide FixedEntries, RecordEntries, ClosureEntries;
    SizeEntriesConcat(FixedEntries(b), RangeEntries(b));
    SizeEntriesConcat(RecordEntries(b), ClosureEntries(b));
  }

  lemma {:induction false} ClosureSize(b: MemoryAtomBody, sources: seq<AtomId>)
    requires NamesSources(b, sources)
    ensures SizeEntries(ClosureEntries(b)) ==
      SizeEntries(ClosureEntries(WithoutSources(b))) + BYTES_PER_SOURCE * |sources|
  {
    var none := WithoutSources(b);
    var e, f := ClosureEntries(b), ClosureEntries(none);
    FourEntries(e[0], e[1], e[2], e[3]);
    FourEntries(f[0], f[1], f[2], f[3]);
    hide PayloadValue, ProvenanceValue, IntervalValue, RelationValue, DigestValue;
    ProvenanceSize(b.provenance);
    ProvenanceSize(none.provenance);
    PayloadSize(b.payload);
    DigestListSize(sources);
    DigestListSize([]);
    SelfDigestsSize(sources);
    DerivedListSize(sources);
  }

  // ---------- large clusters ----------

  /** Every source of an admitted cluster is named in all four places of its consolidated body. */
  lemma {:induction false} ClusterBodyNamesSources(members: seq<RetirementCandidate>, header: RetirementSnapshot,
      authority: Authority)
    requires SoundMembers(members, header, authority)
    requires forall i :: 0 <= i < |members| ==> members[i].body.Some?
    ensures NamesSources(ClusterBody(members, header, authority.policyDigest), IdsOf(members))
  {
    hide SoundCandidate, ScoreOf, ConsensusOptional, ConsensusBodyStrings, ConsensusMap, ConsensusSet, LeastStart,
      GreatestEnd, Decimal, ConsensusRequired, SortDedup;
    SelfDigestsClose(IdsOf(members));
  }

  /** The exact size of an admitted cluster's body: its consensus content plus 468 bytes per member. */
  lemma {:induction false} ClusterSizeIsAdditive(members: seq<RetirementCandidate>, header: RetirementSnapshot,
      authority: Authority)
    requires SoundMembers(members, header, authority)
    requires forall i :: 0 <= i < |members| ==> members[i].body.Some?
    ensures var body := ClusterBody(members, header, authority.policyDigest);
      && body.payload.Semantic?
      && ClusterSize(members, header, authority.policyDigest) ==
           Size(BodyValue(WithoutSources(body))) + BYTES_PER_SOURCE * |members|
  {
    hide SoundMembers, ClusterBody, BodyValue, WithoutSources;
    ClusterBodyNamesSources(members, header, authority);
    SemanticSizeIsAdditive(ClusterBody(members, header, authority.policyDigest), IdsOf(members));
  }

  lemma {:induction false} IntervalIsPaidFor(b: MemoryAtomBody)
    ensures Size(BodyValue(b)) >= 155
  {
    hide FixedEntries, RecordEntries, BodyValue;
    BodySizeParts(b);
    var e := ClosureEntries(b);
    FourEntries(e[0], e[1], e[2], e[3]);
    IntervalSize(b.interval);
  }

  /** From 560 members on, the sources alone fill the hard limit. */
  lemma {:induction false} LargeClustersAreOversize(members: seq<RetirementCandidate>, header: RetirementSnapshot,
      authority: Authority)
    requires SoundMembers(members, header, authority) && |members| >= 560
    requires forall i :: 0 <= i < |members| ==> members[i].body.Some?
    ensures ClusterSize(members, header, authority.policyDigest) > POC_V1.atomHardMaxBytes
  {
    hide SoundMembers, ClusterBody, BodyValue, WithoutSources, ClusterSize;
    ClusterSizeIsAdditive(members, header, authority);
    IntervalIsPaidFor(WithoutSources(ClusterBody(members, header, authority.policyDigest)));
  }

  lemma {:induction false} QualifyingHolds(cs: seq<RetirementCandidate>, clusters: seq<seq<nat>>, c: nat)
    requires InRange(cs, clusters) && c < |clusters| && Qualifies(Pick(cs, clusters[c]))
    ensures clusters[c] in Qualifying(cs, clusters)
  {
    hide Qualifies, IndicesOf, StrictlyIncreasing, Pick;
    if c > 0 {
      assert clusters[1..][c - 1] == clusters[c];
      QualifyingHolds(cs, clusters[1..], c - 1);
    }
  }

  /** An admitted snapshot with a qualifying cluster of 560 or more members never gets a plan. */
  lemma {:induction false} LargeClustersFail(snapshot: RetirementSnapshot, policy: Policy, seed: Seed, env: Environment,
      c: nat)
    requires Live(env.stream(seed)) && Admit(snapshot, policy, env).Ok?
    requires c < |Clusters(Ordered(snapshot.atoms), POC_V1)|
    requires var members := Pick(Ordered(snapshot.atoms), Clusters(Ordered(snapshot.atoms), POC_V1)[c]);
      |members| >= 560 && Qualifies(members)
    ensures PlanRetirement(snapshot, policy, seed, env).Err?
  {
    hide PlanRetirement, Admit, Clusters, Qualifies, SoundCohort, TotalBytes, Qualifying, ClusterSize, Live,
      StrictlyIncreasing, IndicesOf, Pick;
    var cs, header := Ordered(snapshot.atoms), Header(snapshot);
    AdmittedIsSound(snapshot, policy, env);
    PlanningFailsOnlyOn(snapshot, policy, seed, env);
    var clusters := Clusters(cs, POC_V1);
    var q := Qualifying(cs, clusters);
    QualifyingHolds(cs, clusters, c);
    PickedAreSound(cs, clusters[c], header, env.authority);
    ClusterHasBodies(cs, POC_V1, c);
    LargeClustersAreOversize(Pick(cs, clusters[c]), header, env.authority);
    var k :| 0 <= k < |q| && q[k] == clusters[c];
    assert !Fits(cs, q[k], header, env.authority);
  }

  // ---------- snapshots that never get a plan ----------

  lemma {:induction false} AllLinkedIsOneCluster(linked: Link, ordered: seq<nat>)
    requires ordered != [] && forall i, j :: i in ordered && j in ordered ==> linked(i, j)
    ensures CompleteLink(linked, ordered) == [ordered]
  {
    var n := |ordered| - 1;
    var before := ordered[..n];
    assert ordered == before + [ordered[n]];
    if n == 0 {
      assert CompleteLink(linked, before) == [];
    } else {
      AllLinkedIsOneCluster(linked, before);
      assert Joins(linked, ordered[n], before);
    }
  }

  /** Remembered as fully salient and new, with no uncertainty. */
  predicate Vivid(b: MemoryAtomBody) {
    b.formationSignals.salience == SCALE && b.formationSignals.novelty == SCALE && b.formationSignals.uncertainty == 0
  }

  lemma {:induction false} ConstantMean(values: seq<Ppm>, v: Ppm)
    requires values != [] && forall x :: x in values ==> x == v
    ensures MeanOf(values) == v
  {
    MeanWithinBounds(values, v, v);
  }

  /** Support, salience, novelty and a cohesion at the clustering threshold reach the score gate. */
  lemma {:induction false} VividClustersScore(members: seq<RetirementCandidate>)
    requires |members| >= POC_V1.supportSaturationAtoms && |members| < TWO64
    requires forall i :: 0 <= i < |members| ==> members[i].body.Some? && Vivid(members[i].body.value)
    requires ScoreOf(members, POC_V1).cohesion >= POC_V1.clusterSimilarityThreshold
    ensures ScoreOf(members, POC_V1).total >= POC_V1.consolidationThreshold
  {
    AllBodiesFound(members);
    var bodies := BodiesOf(members);
    var s := ScoreOf(members, POC_V1);
    ConstantMean(Map(SalienceOf, bodies), SCALE);
    ConstantMean(Map(NoveltyOf, bodies), SCALE);
    ConstantMean(Map(UncertaintyOf, bodies), 0);
    ScoreParts(members);
    TotalNeverCaps(members);
    hide ScoreOf, MeanOf, Multiply, PositiveTotal;
    PositiveAtLeast(s.support, s.diversity, s.utility, s.salience, s.cohesion, s.novelty);
    UnitProducts(POC_V1.consolidationUncertaintyWeight);
  }

  lemma {:induction false} ScoreParts(members: seq<RetirementCandidate>)
    ensures var bodies := FilterMap(BodyOf, members);
      var s := ScoreOf(members, POC_V1);
      && s.support == Ratio(CountAsU64(|bodies|), POC_V1.supportSaturationAtoms)
      && s.salience == MeanOf(Map(SalienceOf, bodies))
      && s.novelty == MeanOf(Map(NoveltyOf, bodies))
      && s.uncertainty == MeanOf(Map(UncertaintyOf, bodies))
  {
    hide Ratio, MeanOf, Cohesion, Sessions;
  }

  lemma {:induction false} PositiveAtLeast(support: Ppm, diversity: Ppm, utility: Ppm, salience: Ppm, cohesion: Ppm,
      novelty: Ppm)
    requires support == salience == novelty == SCALE && cohesion >= 650_000
    ensures PositiveTotal(support, diversity, utility, salience, cohesion, novelty, POC_V1) >= 565_000
  {
  }

  lemma {:induction false} AllPermitted(cs: seq<RetirementCandidate>, allowed: RetentionPermission -> bool)
    requires forall i :: 0 <= i < |cs| ==> Permitted(cs[i], allowed)
    ensures PermittedIndices(cs, allowed) == seq(|cs|, i => i)
  {
    hide Permitted;
    if cs != [] {
      var n := |cs| - 1;
      AllPermitted(cs[..n], allowed);
      assert seq(|cs|, i => i) == seq(n, i => i) + [n];
    }
  }

  /** Every pair of atoms is alike, all of them vivid and open to consolidation, and not all from
      one session. */
  ghost predicate Uniform(atoms: seq<RetirementCandidate>) {
    && (forall c :: c in atoms ==>
          c.body.Some? && Consolidates(c.body.value.retentionPermission) && Vivid(c.body.value))
    && (forall c, d :: c in atoms && d in atoms && c.body.Some? && d.body.Some? ==>
          SemanticSimilarity(c.body.value, d.body.value, POC_V1) >= POC_V1.clusterSimilarityThreshold)
    && exists c, d :: c in atoms && d in atoms && c.body.Some? && d.body.Some?
                   && SessionOf(c.body.value) != SessionOf(d.body.value)
  }

  lemma {:induction false} UniformIsOneCluster(cs: seq<RetirementCandidate>)
    requires cs != [] && Uniform(cs)
    ensures Clusters(cs, POC_V1) == [seq(|cs|, i => i)] && Pick(cs, seq(|cs|, i => i)) == cs
  {
    hide SemanticSimilarity;
    AllPermitted(cs, Consolidates);
    var eligible: seq<nat> := seq(|cs|, i => i);
    var linked := Linked(cs, POC_V1);
    assert |eligible| == |cs|;
    forall i, j | i in eligible && j in eligible ensures linked(i, j) {
      assert cs[i] in cs && cs[j] in cs;
    }
    AllLinkedIsOneCluster(linked, eligible);
  }

  lemma {:induction false} TwoSessions(cs: seq<RetirementCandidate>)
    requires Uniform(cs)
    ensures |Sessions(FilterMap(BodyOf, cs))| >= 2
  {
    hide SemanticSimilarity, Vivid;
    var c, d :| c in cs && d in cs && c.body.Some? && d.body.Some?
      && SessionOf(c.body.value) != SessionOf(d.body.value);
    FilterMapMembers(BodyOf, cs);
    var i :| 0 <= i < |cs| && cs[i] == c;
    var j :| 0 <= j < |cs| && cs[j] == d;
    var bodies := FilterMap(BodyOf, cs);
    assert BodyOf(cs[i]) == Some(c.body.value) && BodyOf(cs[j]) == Some(d.body.value);
    assert c.body.value in bodies && d.body.value in bodies;
    var a, b := SessionOf(c.body.value), SessionOf(d.body.value);
    assert a in Sessions(bodies) && b in Sessions(bodies);
    PairWithin(Sessions(bodies), a, b);
  }

  lemma {:induction false} PairWithin<T>(s: set<T>, a: T, b: T)
    requires a in s && b in s && a != b
    ensures |s| >= 2
  {
    assert {a, b} <= s && |{a, b}| == 2;
    assert s == {a, b} + (s - {a, b});
  }

  lemma {:induction false} UniformQualifies(cs: seq<RetirementCandidate>)
    requires Uniform(cs) && 10 <= |cs| < TWO64
    ensures Qualifies(cs)
  {
    UniformIsOneCluster(cs);
    ClustersCohere(cs, POC_V1, 0);
    TwoSessions(cs);
    hide ScoreOf, Clusters, Sessions, SemanticSimilarity;
    forall i | 0 <= i < |cs| ensures cs[i].body.Some? && Vivid(cs[i].body.value) {
      assert cs[i] in cs;
    }
    VividClustersScore(cs);
  }

  /** Whatever else they hold, 560 or more admitted atoms that are all alike never get a plan: the
      condition is on the snapshot alone. */
  lemma {:induction false} UniformCohortsFail(snapshot: RetirementSnapshot, policy: Policy, seed: Seed,
      env: Environment)
    requires Live(env.stream(seed)) && Admit(snapshot, policy, env).Ok?
    requires |snapshot.atoms| >= 560 && Uniform(snapshot.atoms)
    ensures PlanRetirement(snapshot, policy, seed, env).Err?
  {
    hide PlanRetirement, Admit, Clusters, Qualifies, Live, SemanticSimilarity, Vivid, SortBy;
    var cs := Ordered(snapshot.atoms);
    MembersOfMultiset(snapshot.atoms, cs);
    assert Uniform(cs);
    AdmittedIsSmall(snapshot, policy, env);
    UniformIsOneCluster(cs);
    UniformQualifies(cs);
    LargeClustersFail(snapshot, policy, seed, env, 0);
  }
}
