/** What admission establishes about every candidate, and what that makes of a cluster's
    consolidated body. */
module AdmittedCohorts {
  import opened Wrappers
  import opened Numbers
  import opened Sequences
  import opened Digests
  import opened CanonicalSize
  import opened Model
  import opened ModelValues
  import opened Validation
  import opened Similarity
  import opened Clustering
  import opened Consolidation
  import opened Plans
  import opened Cohort
  import opened SemanticSelection

  /** One admitted episode: its body is valid and addressed by its id, was recorded before the
      cohort closed, and its exact package, if it may be kept, is within the limit. */
  ghost predicate SoundCandidate(c: RetirementCandidate, header: RetirementSnapshot, authority: Authority) {
    && c.body.Some? && c.bodyDigest == c.atomId
    && SoundBody(c.body.value, header)
    && AtomIdOf(c.body.value, authority.hash) == Ok(c.atomId)
    && AtomBytes(c.body.value).Ok? && 0 < |AtomBytes(c.body.value).value| <= POC_V1.atomHardMaxBytes
    && (KeepsExact(c.body.value.retentionPermission) ==> c.exactPackageBytes <= POC_V1.exactPackageMaxBytes)
  }

  ghost predicate SoundBody(b: MemoryAtomBody, header: RetirementSnapshot) {
    && b.payload.Episode?
    && b.interval.startedAtUs <= b.interval.endedAtUs <= header.asOfUs
    && b.scope.sessionId != [] && b.scope.memorySpaceId == header.memorySpaceId
  }

  lemma {:induction false} StructureFacts(b: MemoryAtomBody, policy: Policy, authority: Authority)
    requires ValidateStructure(b, policy, authority).Ok?
    ensures b.interval.startedAtUs <= b.interval.endedAtUs <= b.interval.recordedAtUs
    ensures b.scope.sessionId != []
  {
    hide ValidateEpisodeBody, ValidateSemanticBody, ValidateArtifacts;
  }

  lemma {:induction false} BodyLimits(b: MemoryAtomBody, policy: Policy, authority: Authority)
    requires ValidateMemoryAtomBody(b, policy, authority).Ok?
    ensures ValidateStructure(b, policy, authority).Ok?
    ensures b.retentionPermission == SemanticAndExactAllowed ==>
      ExactPackageBytes(b).Ok? && ExactPackageBytes(b).value <= policy.exactPackageMaxBytes
  {
    hide ValidateStructure, EncodedSizeBytes, ExactPackageBytes;
  }

  lemma {:induction false} AddressFacts(c: RetirementCandidate, b: MemoryAtomBody, hash: Hash)
    requires CheckAddress(c, b, hash).Ok?
    ensures AtomBytes(b).Ok? && AtomIdOf(b, hash) == Ok(c.atomId)
    ensures EncodedSizeBytes(b) == Ok(|AtomBytes(b).value|)
    ensures ExactPackageBytes(b) == Ok(c.exactPackageBytes)
  {
    hide BodyValue, RetainedBytes;
  }

  lemma {:induction false} ClosedBefore(expires: u64, day: nat, recorded: u64, horizon: u64)
    requires expires / DAY_US == day && expires == recorded + horizon
    ensures recorded <= (day + 1) * DAY_US
  {
  }

  lemma {:induction false} CandidateIsSound(c: RetirementCandidate, header: RetirementSnapshot, authority: Authority)
    requires CheckCandidate(c, header, POC_V1, authority).Ok?
    requires header.asOfUs >= (header.cohortDay + 1) * DAY_US
    ensures SoundCandidate(c, header, authority)
  {
    hide ValidateMemoryAtomBody, CheckAddress, AtomBytes, AtomIdOf, EncodedSizeBytes, ExactPackageBytes,
      ValidateStructure;
    var b := c.body.value;
    BodyLimits(b, POC_V1, authority);
    StructureFacts(b, POC_V1, authority);
    AddressFacts(c, b, authority.hash);
    ValidBodyIsAddressed(b, POC_V1, authority);
    ClosedBefore(c.state.expiresAtUs.value, header.cohortDay, b.interval.recordedAtUs, POC_V1.stmHorizonUs);
  }

  /** An admitted cohort: sound candidates in strict address order. */
  ghost predicate SoundCohort(cs: seq<RetirementCandidate>, header: RetirementSnapshot, authority: Authority) {
    && 0 < |cs| <= 100_000 && header.memorySpaceId != []
    && (forall i, j :: 0 <= i < j < |cs| ==> cs[i].atomId < cs[j].atomId)
    && (forall i :: 0 <= i < |cs| ==> SoundCandidate(cs[i], header, authority))
  }

  lemma {:induction false} AdmittedIsSound(snapshot: RetirementSnapshot, policy: Policy, env: Environment)
    requires Admit(snapshot, policy, env).Ok?
    ensures policy == POC_V1 && SoundCohort(Ordered(snapshot.atoms), Header(snapshot), env.authority)
  {
    hide CheckCandidate, SoundCandidate;
    AdmittedAreOrdered(snapshot, policy, env);
    AdmittedIsSmall(snapshot, policy, env);
    var cs := Ordered(snapshot.atoms);
    forall i | 0 <= i < |cs| ensures SoundCandidate(cs[i], Header(snapshot), env.authority) {
      assert cs[i] in cs;
      CandidateIsSound(cs[i], Header(snapshot), env.authority);
    }
  }

  // ---------- the members of a cluster ----------

  /** Members of an admitted cohort, in address order. */
  ghost predicate SoundMembers(members: seq<RetirementCandidate>, header: RetirementSnapshot, authority: Authority) {
    && (forall i, j :: 0 <= i < j < |members| ==> members[i].atomId < members[j].atomId)
    && (forall i :: 0 <= i < |members| ==> SoundCandidate(members[i], header, authority))
  }

  function BodiesOf(members: seq<RetirementCandidate>): (r: seq<MemoryAtomBody>)
    requires forall i :: 0 <= i < |members| ==> members[i].body.Some?
    ensures |r| == |members| && forall i :: 0 <= i < |r| ==> r[i] == members[i].body.value
  {
    seq(|members|, i requires 0 <= i < |members| => members[i].body.value)
  }

  function IdsOf(members: seq<RetirementCandidate>): (r: seq<AtomId>)
    ensures |r| == |members| && forall i :: 0 <= i < |r| ==> r[i] == members[i].atomId
  {
    seq(|members|, i requires 0 <= i < |members| => members[i].atomId)
  }

  lemma {:induction false} AllBodiesFound(members: seq<RetirementCandidate>)
    requires forall i :: 0 <= i < |members| ==> members[i].body.Some?
    ensures FilterMap(BodyOf, members) == BodiesOf(members)
  {
    if members != [] {
      AllBodiesFound(members[1..]);
      assert BodiesOf(members) == [members[0].body.value] + BodiesOf(members[1..]);
    }
  }

  lemma {:induction false} PickedAreSound(cs: seq<RetirementCandidate>, cluster: seq<nat>, header: RetirementSnapshot,
      authority: Authority)
    requires SoundCohort(cs, header, authority) && IndicesOf(cs, cluster) && StrictlyIncreasing(cluster)
    ensures SoundMembers(Pick(cs, cluster), header, authority)
  {
    hide SoundCandidate;
  }

  /** The body a cluster consolidates into. */
  function ClusterBody(members: seq<RetirementCandidate>, header: RetirementSnapshot,
      policyDigest: Digest): MemoryAtomBody
    requires forall i :: 0 <= i < |members| ==> members[i].body.Some?
  {
    ConsolidatedBody(BodiesOf(members), IdsOf(members), ScoreOf(members, POC_V1), header, policyDigest, POC_V1)
  }

  lemma {:induction false} BodiesSorted(members: seq<RetirementCandidate>, header: RetirementSnapshot,
      authority: Authority)
    requires SoundMembers(members, header, authority)
    ensures SortBy(ByAddress(authority.hash), BodiesOf(members)) == BodiesOf(members)
  {
    hide AtomIdOf, AtomBytes, SoundBody;
    var leq, bodies := ByAddress(authority.hash), BodiesOf(members);
    forall i | 0 <= i < |bodies| ensures SortKey(bodies[i], authority.hash) == members[i].atomId {
      assert SoundCandidate(members[i], header, authority);
    }
    forall i, j | 0 <= i < j < |bodies| ensures leq(bodies[i], bodies[j]) {
    }
    assert Decided(leq, bodies) by {
      forall x, y | x in bodies && y in bodies && leq(x, y) && leq(y, x) ensures x == y {
        var i :| 0 <= i < |bodies| && bodies[i] == x;
        var j :| 0 <= j < |bodies| && bodies[j] == y;
        assert members[i].atomId == members[j].atomId;
      }
    }
    AddressOrder(authority.hash);
    SortKeepsSorted(leq, bodies);
  }

  lemma {:induction false} AddressOrder(hash: Hash)
    ensures TotalPreorder(ByAddress(hash))
  {
  }

  lemma {:induction false} TryMapIs<T, U>(f: T -> Result<U>, s: seq<T>, r: seq<U>)
    requires |r| == |s| && forall i :: 0 <= i < |s| ==> f(s[i]) == Ok(r[i])
    ensures TryMap(f, s) == Ok(r)
  {
    assert TryMap(f, s).Ok? && TryMap(f, s).value == r;
  }

  /** Building never fails on sound members, and gives the cluster's body. */
  lemma {:induction false} BuildIsClusterBody(members: seq<RetirementCandidate>, header: RetirementSnapshot,
      authority: Authority)
    requires SoundMembers(members, header, authority)
    ensures BuildSemanticBody(members, ScoreOf(members, POC_V1), header, authority, POC_V1) ==
      Ok(ClusterBody(members, header, authority.policyDigest))
  {
    hide SoundBody, AtomIdOf, AtomBytes, ConsolidatedBody, ScoreOf;
    forall i | 0 <= i < |members| ensures members[i].body.Some?
      && AtomIdOf(members[i].body.value, authority.hash) == Ok(members[i].atomId)
    {
      assert SoundCandidate(members[i], header, authority);
    }
    TryMapIs((c: RetirementCandidate) => c.body.OkOr(CanonicalEncoding), members, BodiesOf(members));
    BodiesSorted(members, header, authority);
    TryMapIs((b: MemoryAtomBody) => AtomIdOf(b, authority.hash), BodiesOf(members), IdsOf(members));
  }

  /** The consolidated body of a large enough cluster passes every rule but the size limit. */
  lemma {:induction false} ClusterBodyIsStructured(members: seq<RetirementCandidate>, header: RetirementSnapshot,
      authority: Authority)
    requires SoundMembers(members, header, authority) && header.memorySpaceId != []
    requires |members| >= POC_V1.minSemanticSources
    ensures var body := ClusterBody(members, header, authority.policyDigest);
      && ValidateStructure(body, POC_V1, authority).Ok?
      && body.payload == SemanticPayload(IdsOf(members), ScoreOf(members, POC_V1), POC_V1)
      && body.retentionPermission == SemanticAllowed
  {
    hide AtomIdOf, AtomBytes, ScoreOf, ValidateStructure;
    var bodies := BodiesOf(members);
    forall b | b in bodies ensures b.interval.startedAtUs <= b.interval.endedAtUs <= header.asOfUs {
      var i :| 0 <= i < |bodies| && bodies[i] == b;
      assert SoundCandidate(members[i], header, authority);
    }
    ConsolidatedBodyIsStructured(bodies, IdsOf(members), ScoreOf(members, POC_V1), header, authority);
    ConsolidatedFields(bodies, IdsOf(members), ScoreOf(members, POC_V1), header, authority.policyDigest);
  }

  lemma {:induction false} ConsolidatedFields(bodies: seq<MemoryAtomBody>, sources: seq<AtomId>,
      score: ConsolidationScore, header: RetirementSnapshot, policyDigest: Digest)
    ensures var body := ConsolidatedBody(bodies, sources, score, header, policyDigest, POC_V1);
      body.payload == SemanticPayload(sources, score, POC_V1) && body.retentionPermission == SemanticAllowed
  {
    hide SemanticPayload;
  }

  // ---------- the outcome for one cluster ----------

  /** Enough sources, enough sessions, and a high enough score. */
  ghost predicate Qualifies(members: seq<RetirementCandidate>) {
    && |members| >= POC_V1.minSemanticSources
    && |Sessions(FilterMap(BodyOf, members))| >= POC_V1.minSemanticSessions
    && ScoreOf(members, POC_V1).total >= POC_V1.consolidationThreshold
  }

  function ClusterSize(members: seq<RetirementCandidate>, header: RetirementSnapshot, policyDigest: Digest): nat
    requires forall i :: 0 <= i < |members| ==> members[i].body.Some?
  {
    Size(BodyValue(ClusterBody(members, header, policyDigest)))
  }

  lemma {:induction false} ValidationIsSizeOnly(body: MemoryAtomBody, authority: Authority)
    requires ValidateStructure(body, POC_V1, authority).Ok? && body.retentionPermission == SemanticAllowed
    ensures var size := Size(BodyValue(body));
      ValidateMemoryAtomBody(body, POC_V1, authority) ==
        if size >= TWO64 then Err(CanonicalEncoding)
        else if size > POC_V1.atomHardMaxBytes then Err(AtomTooLarge(size))
        else Ok(())
    ensures EncodedSizeBytes(body) ==
      if Size(BodyValue(body)) < TWO64 then Ok(Size(BodyValue(body))) else Err(CanonicalEncoding)
  {
    hide ValidateStructure, BodyValue;
    BodyRepresentable(body);
    EncodedSizeIsModel(BodyValue(body));
  }

  /** A cluster fails planning exactly when it qualifies and its body is over the hard limit;
      otherwise a qualifying cluster yields its body under its own address and size. */
  lemma {:induction false} ConsiderOutcome(members: seq<RetirementCandidate>, header: RetirementSnapshot,
      authority: Authority)
    requires SoundMembers(members, header, authority) && header.memorySpaceId != []
    ensures Consider(members, header, authority, POC_V1) == ClusterOutcome(members, header, authority)
  {
    hide ValidateMemoryAtomBody, BuildSemanticBody, ScoreOf, ClusterBody, EncodedSizeBytes, SoundMembers, AtomIdOf,
      SoundCandidate;
    MembersHaveBodies(members, header, authority);
    if Qualifies(members) {
      var body := ClusterBody(members, header, authority.policyDigest);
      BuildIsClusterBody(members, header, authority);
      ClusterBodyIsStructured(members, header, authority);
      ValidationIsSizeOnly(body, authority);
      if Size(BodyValue(body)) <= POC_V1.atomHardMaxBytes {
        ValidBodyIsAddressed(body, POC_V1, authority);
      }
    }
  }

  lemma {:induction false} MembersHaveBodies(members: seq<RetirementCandidate>, header: RetirementSnapshot,
      authority: Authority)
    requires SoundMembers(members, header, authority)
    ensures forall i :: 0 <= i < |members| ==> members[i].body.Some?
  {
    forall i | 0 <= i < |members| ensures members[i].body.Some? {
      assert SoundCandidate(members[i], header, authority);
    }
  }

  ghost function ClusterOutcome(members: seq<RetirementCandidate>, header: RetirementSnapshot, authority: Authority):
    Result<Option<Scored>>
    requires forall i :: 0 <= i < |members| ==> members[i].body.Some?
  {
    if !Qualifies(members) then Ok(None)
    else
      var body := ClusterBody(members, header, authority.policyDigest);
      var size := ClusterSize(members, header, authority.policyDigest);
      if size >= TWO64 then Err(CanonicalEncoding)
      else if size > POC_V1.atomHardMaxBytes then Err(AtomTooLarge(size))
      else
        var atomId := SortKey(body, authority.hash);
        Ok(Some(Scored(ScoreOf(members, POC_V1), PlannedSemantic(atomId, atomId, size, body))))
  }

  // ---------- cohesion of planned clusters ----------

  lemma {:induction false} ClusterHasBodies(cs: seq<RetirementCandidate>, policy: Policy, c: nat)
    requires c < |Clusters(cs, policy)|
    ensures var members := Pick(cs, Clusters(cs, policy)[c]);
      forall i :: 0 <= i < |members| ==> members[i].body.Some?
  {
    PermittedAreExact(cs, Consolidates);
    ClustersInRange(Linked(cs, policy), PermittedIndices(cs, Consolidates));
  }

  /** Every pair in a cluster meets the similarity threshold, so the cohesion that scores the
      cluster is at least the threshold. */
  lemma {:induction false} ClustersCohere(cs: seq<RetirementCandidate>, policy: Policy, c: nat)
    requires c < |Clusters(cs, policy)|
    ensures ScoreOf(Pick(cs, Clusters(cs, policy)[c]), policy).cohesion >= policy.clusterSimilarityThreshold
  {
    hide SemanticSimilarity, PermittedIndices, CompleteLink;
    var linked, eligible := Linked(cs, policy), PermittedIndices(cs, Consolidates);
    var cluster := Clusters(cs, policy)[c];
    var members := Pick(cs, cluster);
    ClusterHasBodies(cs, policy, c);
    PermittedAreExact(cs, Consolidates);
    CompleteLinkIsClustering(linked, eligible);
    var bodies := BodiesOf(members);
    forall i, j | 0 <= i < j < |bodies|
      ensures SemanticSimilarity(bodies[i], bodies[j], policy) >= policy.clusterSimilarityThreshold
    {
      assert linked(cluster[j], cluster[i]);
      SimilaritySymmetric(bodies[i], bodies[j], policy);
    }
    CohesionAtLeast(bodies, policy, policy.clusterSimilarityThreshold);
    AllBodiesFound(members);
    CohesionOfScore(members, policy);
  }

  lemma {:induction false} CohesionOfScore(members: seq<RetirementCandidate>, policy: Policy)
    ensures ScoreOf(members, policy).cohesion == Cohesion(FilterMap(BodyOf, members), policy)
  {
    hide Cohesion;
  }
}
