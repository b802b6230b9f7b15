/** The records that seals, plans and receipts are made of. Sets of strings are strictly
    sorted sequences, and string maps are association lists sorted by key, which is how the
    source's ordered collections iterate. */
module Model {
  import opened Wrappers
  import opened Numbers
  import opened Sequences
  import opened Fixed
  import opened Digests

  /** A `BTreeSet<String>` in iteration order. */
  ghost predicate IsTextSet(s: seq<Text>) {
    forall i, j :: 0 <= i < j < |s| ==> TextLess(s[i], s[j])
  }

  type TextSet = s: seq<Text> | IsTextSet(s) witness []

  datatype TextPair = TextPair(key: Text, value: Text)

  ghost predicate IsTextMap(s: seq<TextPair>) {
    forall i, j :: 0 <= i < j < |s| ==> TextLess(s[i].key, s[j].key)
  }

  /** A `BTreeMap<String, String>` in iteration order. */
  type TextMap = s: seq<TextPair> | IsTextMap(s) witness []

  datatype MemoryScope = MemoryScope(
    memorySpaceId: Text, repositoryId: Option<Text>, taskId: Option<Text>, agentId: Option<Text>, sessionId: Text)

  datatype TimeInterval = TimeInterval(startedAtUs: u64, endedAtUs: u64, recordedAtUs: u64)

  datatype SealReason = GoalCompleted | TerminalFailure | GoalChanged | ContextChanged | Checkpoint | Handoff | Timeout

  datatype RetentionPermission = TransientOnly | SemanticAllowed | SemanticAndExactAllowed

  datatype Observation = Observation(atUs: u64, source: Text, content: Text, artifactDigest: Option<Digest>)
  datatype Interpretation = Interpretation(content: Text, confidence: Ppm, evidence: seq<Digest>)
  datatype Belief = Belief(proposition: Text, confidence: Ppm, evidence: seq<Digest>)
  datatype DecisionRecord = DecisionRecord(decision: Text, rationale: Text)
  datatype RejectedAlternative = RejectedAlternative(alternative: Text, reason: Text)
  datatype ActionRecord = ActionRecord(action: Text, result: Option<Text>)
  datatype Outcome = Outcome(class_: Text, summary: Text, succeeded: bool)
  datatype FeedbackSignal = FeedbackSignal(source: Text, positive: bool, note: Option<Text>)
  datatype FormationSignals = FormationSignals(utility: Ppm, salience: Ppm, novelty: Ppm, uncertainty: Ppm)
  datatype Provenance = Provenance(producer: Text, sourceEventDigests: seq<Digest>, policyDigest: Digest)

  datatype RelationKind = Continues | Supports | Contradicts | Supersedes | DerivedFrom {
    function Key(): nat {
      match this
      case Continues => 0 case Supports => 1 case Contradicts => 2 case Supersedes => 3 case DerivedFrom => 4
    }
  }

  datatype Relation = Relation(kind: RelationKind, target: AtomId)

  datatype ArtifactRef = ArtifactRef(
    digest: Digest, sizeBytes: u64, mediaType: Text, retentionAllowed: bool, inlinePayload: Option<seq<byte>>)

  datatype ConsolidationScore = ConsolidationScore(
    support: Ppm, diversity: Ppm, utility: Ppm, salience: Ppm, cohesion: Ppm, novelty: Ppm, uncertainty: Ppm,
    total: Ppm)

  datatype SourceDigest = SourceDigest(source: AtomId, digest: Digest)

  datatype MemoryPayload =
    | Episode(eventSequenceStart: u64, eventSequenceEnd: u64, continues: Option<AtomId>)
    | Semantic(sourceIds: seq<AtomId>, sourceBodyDigests: seq<SourceDigest>, score: ConsolidationScore,
               consensusNumerator: u32, consensusDenominator: u32, supersedes: Option<AtomId>)

  /** The immutable, content-addressed part of an atom. */
  datatype MemoryAtomBody = MemoryAtomBody(
    contractVersion: Text,
    scope: MemoryScope,
    interval: TimeInterval,
    trigger: Text,
    sealReason: SealReason,
    goal: Option<Text>,
    plan: seq<Text>,
    internalStateBefore: TextMap,
    internalStateAfter: TextMap,
    observations: seq<Observation>,
    interpretations: seq<Interpretation>,
    beliefs: seq<Belief>,
    decisions: seq<DecisionRecord>,
    rejectedAlternatives: seq<RejectedAlternative>,
    actions: seq<ActionRecord>,
    outcome: Option<Outcome>,
    feedback: seq<FeedbackSignal>,
    formationSignals: FormationSignals,
    topicKeys: TextSet,
    entityIds: TextSet,
    outcomeClass: Option<Text>,
    goalKey: Option<Text>,
    provenance: Provenance,
    relations: seq<Relation>,
    artifacts: seq<ArtifactRef>,
    retentionPermission: RetentionPermission,
    payload: MemoryPayload)

  datatype RetentionTier = ShortTerm | SemanticLongTerm | EpisodicLongTerm | DualLongTerm | HeaderOnly
  datatype ContentStatus = Present | Forgotten | Corrupt
  datatype IntegrityStatus = Complete | MissingBody | MissingArtifact | DigestMismatch

  /** The mutable part: lifecycle, feedback and retrieval counters. */
  datatype AtomState = AtomState(
    retentionTier: RetentionTier,
    contentStatus: ContentStatus,
    expiresAtUs: Option<u64>,
    supersededBy: Option<AtomId>,
    feedbackPositive: u64,
    feedbackNegative: u64,
    retrievalCount: u64,
    retirementRunId: Option<Digest>)
  {
    /** The Beta(1,1) posterior mean of the feedback. Retrieval counts play no part. */
    function ValidatedUtility(): Ppm {
      Ratio(SaturatingAdd(feedbackPositive, 1), SaturatingAdd(SaturatingAdd(feedbackPositive, feedbackNegative), 2))
    }

    predicate IsEpisodicLongTerm() {
      retentionTier == EpisodicLongTerm || retentionTier == DualLongTerm
    }
  }

  datatype RetirementCandidate = RetirementCandidate(
    atomId: AtomId,
    bodyDigest: Digest,
    body: Option<MemoryAtomBody>,
    state: AtomState,
    integrity: IntegrityStatus,
    exactPackageBytes: u64)

  datatype RetirementSnapshot = RetirementSnapshot(
    contractVersion: Text,
    memorySpaceId: Text,
    cohortDay: u64,
    asOfUs: u64,
    atoms: seq<RetirementCandidate>)

  // ---------- the committed policy ----------

  const DAY_US: int := 86_400_000_000

  datatype Policy = Policy(
    policyId: Text,
    contractVersion: Text,
    stmHorizonUs: u64,
    maxCohortAtoms: nat,
    atomTargetBytes: u64,
    atomHardMaxBytes: u64,
    inlinePayloadMaxBytes: u64,
    artifactMaxBytes: u64,
    exactPackageMaxBytes: u64,
    similarityTopicWeight: Ppm,
    similarityEntityWeight: Ppm,
    similarityOutcomeWeight: Ppm,
    clusterSimilarityThreshold: Ppm,
    minSemanticSources: nat,
    minSemanticSessions: nat,
    supportSaturationAtoms: u64,
    consolidationSupportWeight: Ppm,
    consolidationDiversityWeight: Ppm,
    consolidationUtilityWeight: Ppm,
    consolidationSalienceWeight: Ppm,
    consolidationCohesionWeight: Ppm,
    consolidationNoveltyWeight: Ppm,
    consolidationUncertaintyWeight: Ppm,
    consolidationThreshold: Ppm,
    semanticRate: Ppm,
    semanticCountMax: nat,
    semanticBodyBudgetBytes: u64,
    consensusNumerator: u32,
    consensusDenominator: u32,
    episodicRate: Ppm,
    episodicCountMax: nat,
    episodicPinBudgetBytes: u64,
    retrievalCandidateMax: nat,
    retrievalDefaultK: nat,
    retrievalMaxK: nat,
    retrievalLexicalWeight: Ppm,
    retrievalSemanticWeight: Ppm,
    retrievalEntityWeight: Ppm,
    retrievalUtilityWeight: Ppm,
    retrievalRecencyWeight: Ppm,
    retrievalRecencyHorizonUs: u64,
    flashbackBudgetMax: nat)

  const POC_V1: Policy := Policy(
    policyId := Ascii("poc-v1"),
    contractVersion := Ascii("policy-v1"),
    stmHorizonUs := 604_800_000_000,
    maxCohortAtoms := 100_000,
    atomTargetBytes := 131_072,
    atomHardMaxBytes := 262_144,
    inlinePayloadMaxBytes := 4_096,
    artifactMaxBytes := 67_108_864,
    exactPackageMaxBytes := 67_108_864,
    similarityTopicWeight := 600_000,
    similarityEntityWeight := 250_000,
    similarityOutcomeWeight := 150_000,
    clusterSimilarityThreshold := 650_000,
    minSemanticSources := 3,
    minSemanticSessions := 2,
    supportSaturationAtoms := 10,
    consolidationSupportWeight := 250_000,
    consolidationDiversityWeight := 200_000,
    consolidationUtilityWeight := 200_000,
    consolidationSalienceWeight := 150_000,
    consolidationCohesionWeight := 100_000,
    consolidationNoveltyWeight := 100_000,
    consolidationUncertaintyWeight := 150_000,
    consolidationThreshold := 550_000,
    semanticRate := 20_000,
    semanticCountMax := 100,
    semanticBodyBudgetBytes := 8_388_608,
    consensusNumerator := 2,
    consensusDenominator := 3,
    episodicRate := 5_000,
    episodicCountMax := 25,
    episodicPinBudgetBytes := 268_435_456,
    retrievalCandidateMax := 512,
    retrievalDefaultK := 10,
    retrievalMaxK := 100,
    retrievalLexicalWeight := 450_000,
    retrievalSemanticWeight := 250_000,
    retrievalEntityWeight := 150_000,
    retrievalUtilityWeight := 100_000,
    retrievalRecencyWeight := 50_000,
    retrievalRecencyHorizonUs := 31_536_000_000_000,
    flashbackBudgetMax := 3)
}
