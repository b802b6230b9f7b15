/** Retirement plans, and the environment a plan is made in. Content addresses of atoms are
    hashes of real canonical bytes; the remaining digests are arbitrary functions of the
    records they cover. */
module Plans {
  import opened Wrappers
  import opened Numbers
  import opened Sequences
  import opened Digests
  import opened Model
  import opened Validation
  import opened Lottery

  datatype PlannedSemantic = PlannedSemantic(
    atomId: AtomId, bodyDigest: Digest, canonicalSizeBytes: u64, body: MemoryAtomBody)

  datatype Disposition = Selected | SkippedAtomHardLimit | SkippedCountBudget | SkippedByteBudget

  datatype SemanticDecision = SemanticDecision(
    atomId: AtomId, sourceIds: seq<AtomId>, score: ConsolidationScore, canonicalSizeBytes: u64,
    disposition: Disposition)

  datatype RetirementDecision = RetirementDecision(
    atomId: AtomId, semanticAtomIds: seq<AtomId>, exactRetained: bool, exactArtifactDigests: seq<Digest>,
    forgetEpisodeBody: bool)

  datatype MemoryKind = EpisodeKind | SemanticKind

  function KindOf(body: MemoryAtomBody): MemoryKind {
    if body.payload.Episode? then EpisodeKind else SemanticKind
  }

  /** The state of one atom after the plan has been applied. */
  datatype PostStateAtom = PostStateAtom(
    atomId: AtomId,
    kind: MemoryKind,
    repositoryId: Option<Text>,
    taskId: Option<Text>,
    agentId: Option<Text>,
    sessionId: Option<Text>,
    recordedAtUs: u64,
    headerBodyDigest: Digest,
    headerBodyBytes: nat,
    retentionPermission: RetentionPermission,
    provenanceDigest: Digest,
    storedBodyDigest: Option<Digest>,
    retentionTier: RetentionTier,
    contentStatus: ContentStatus,
    expiresAtUs: Option<u64>,
    supersededBy: Option<AtomId>,
    feedbackPositive: u64,
    feedbackNegative: u64,
    retrievalCount: u64,
    retirementRunBound: bool,
    searchProjectionPresent: bool,
    pinnedArtifactDigests: seq<Digest>)

  datatype PostState = PostState(
    memorySpaceId: Text, sourceAtoms: seq<PostStateAtom>, semanticAtoms: seq<PostStateAtom>)

  datatype RetirementPlan = RetirementPlan(
    contractVersion: Text,
    policyId: Text,
    policyDigest: Digest,
    seed: Seed,
    memorySpaceId: Text,
    cohortDay: u64,
    asOfUs: u64,
    inputSetDigest: Digest,
    rngIdentifier: Text,
    episodicPopulationDigest: Digest,
    episodicPopulationCount: nat,
    episodicWinnerBudget: nat,
    episodicWinnerBytes: u64,
    semanticCountBudget: nat,
    semanticBodyBytes: u64,
    semanticDecisions: seq<SemanticDecision>,
    semanticAtoms: seq<PlannedSemantic>,
    episodicWinners: seq<AtomId>,
    decisions: seq<RetirementDecision>,
    projectedPostState: PostState,
    projectedStateDigest: Digest)

  const PLAN_VERSION: Text := Ascii("retirement-plan-v1")
  const RNG_IDENTIFIER: Text := Ascii("chacha20-rand_chacha-0.3/partial-fisher-yates-v1")

  /** One candidate as the input digest binds it: the body by its digest, the state in full. */
  datatype InputMember = InputMember(
    atomId: AtomId, bodyDigest: Digest, state: AtomState, integrity: IntegrityStatus, exactPackageBytes: u64)

  datatype InputAuthority = InputAuthority(
    contractVersion: Text, memorySpaceId: Text, cohortDay: u64, asOfUs: u64, atoms: seq<InputMember>)

  datatype PopulationMember = PopulationMember(atomId: AtomId, bodyDigest: Digest, exactPackageBytes: u64)

  datatype Environment = Environment(
    authority: Authority,
    stream: Seed -> Stream,
    inputDigest: InputAuthority -> Digest,
    populationDigest: seq<PopulationMember> -> Digest,
    provenanceDigest: Provenance -> Digest,
    stateDigest: PostState -> Digest)
}
