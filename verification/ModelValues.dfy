/** How the records serialize: each structure becomes an object with one entry per field. */
module ModelValues {
  import opened Wrappers
  import opened Numbers
  import opened Sequences
  import opened Digests
  import opened Canonical
  import opened CanonicalSize
  import opened Model

  function Named(name: string, value: Value): Entry {
    Entry(Ascii(name), value)
  }

  function TextValue(text: Text): Value {
    Str(text)
  }

  function DigestValue(digest: Digest): Value {
    Str(Hex(digest))
  }

  function Optional<T>(value: Option<T>, of: T -> Value): Value {
    match value case None => Null case Some(v) => of(v)
  }

  function ListOf<T>(items: seq<T>, of: T -> Value): Value {
    Array(Map(of, items))
  }

  function PairEntry(pair: TextPair): Entry {
    Entry(pair.key, Str(pair.value))
  }

  function TextMapValue(pairs: seq<TextPair>): Value {
    Object(Map(PairEntry, pairs))
  }

  function ScopeValue(s: MemoryScope): Value {
    Object([
      Named("memory_space_id", Str(s.memorySpaceId)),
      Named("repository_id", Optional(s.repositoryId, TextValue)),
      Named("task_id", Optional(s.taskId, TextValue)),
      Named("agent_id", Optional(s.agentId, TextValue)),
      Named("session_id", Str(s.sessionId))])
  }

  function IntervalValue(i: TimeInterval): Value {
    Object([
      Named("started_at_us", Integer(i.startedAtUs)),
      Named("ended_at_us", Integer(i.endedAtUs)),
      Named("recorded_at_us", Integer(i.recordedAtUs))])
  }

  function SealReasonValue(r: SealReason): Value {
    Str(Ascii(match r
      case GoalCompleted => "goal_completed"
      case TerminalFailure => "terminal_failure"
      case GoalChanged => "goal_changed"
      case ContextChanged => "context_changed"
      case Checkpoint => "checkpoint"
      case Handoff => "handoff"
      case Timeout => "timeout"))
  }

  function PermissionValue(p: RetentionPermission): Value {
    Str(Ascii(match p
      case TransientOnly => "transient_only"
      case SemanticAllowed => "semantic_allowed"
      case SemanticAndExactAllowed => "semantic_and_exact_allowed"))
  }

  function ObservationValue(o: Observation): Value {
    Object([
      Named("at_us", Integer(o.atUs)),
      Named("source", Str(o.source)),
      Named("content", Str(o.content)),
      Named("artifact_digest", Optional(o.artifactDigest, DigestValue))])
  }

  function InterpretationValue(i: Interpretation): Value {
    Object([
      Named("content", Str(i.content)),
      Named("confidence", Integer(i.confidence)),
      Named("evidence", ListOf(i.evidence, DigestValue))])
  }

  function BeliefValue(b: Belief): Value {
    Object([
      Named("proposition", Str(b.proposition)),
      Named("confidence", Integer(b.confidence)),
      Named("evidence", ListOf(b.evidence, DigestValue))])
  }

  function DecisionValue(d: DecisionRecord): Value {
    Object([Named("decision", Str(d.decision)), Named("rationale", Str(d.rationale))])
  }

  function AlternativeValue(a: RejectedAlternative): Value {
    Object([Named("alternative", Str(a.alternative)), Named("reason", Str(a.reason))])
  }

  function ActionValue(a: ActionRecord): Value {
    Object([Named("action", Str(a.action)), Named("result", Optional(a.result, TextValue))])
  }

  function OutcomeValue(o: Outcome): Value {
    Object([
      Named("class", Str(o.class_)),
      Named("summary", Str(o.summary)),
      Named("succeeded", Bool(o.succeeded))])
  }

  function FeedbackValue(f: FeedbackSignal): Value {
    Object([
      Named("source", Str(f.source)),
      Named("positive", Bool(f.positive)),
      Named("note", Optional(f.note, TextValue))])
  }

  function SignalsValue(s: FormationSignals): Value {
    Object([
      Named("utility", Integer(s.utility)),
      Named("salience", Integer(s.salience)),
      Named("novelty", Integer(s.novelty)),
      Named("uncertainty", Integer(s.uncertainty))])
  }

  function ProvenanceValue(p: Provenance): Value {
    Object([
      Named("producer", Str(p.producer)),
      Named("source_event_digests", ListOf(p.sourceEventDigests, DigestValue)),
      Named("policy_digest", DigestValue(p.policyDigest))])
  }

  function KindValue(k: RelationKind): Value {
    Str(Ascii(match k
      case Continues => "continues"
      case Supports => "supports"
      case Contradicts => "contradicts"
      case Supersedes => "supersedes"
      case DerivedFrom => "derived_from"))
  }

  function RelationValue(r: Relation): Value {
    Object([Named("kind", KindValue(r.kind)), Named("target", DigestValue(r.target))])
  }

  function ByteValue(b: byte): Value {
    Integer(b)
  }

  function InlineValue(bytes: seq<byte>): Value {
    ListOf(bytes, ByteValue)
  }

  function ArtifactValue(a: ArtifactRef): Value {
    Object([
      Named("digest", DigestValue(a.digest)),
      Named("size_bytes", Integer(a.sizeBytes)),
      Named("media_type", Str(a.mediaType)),
      Named("retention_allowed", Bool(a.retentionAllowed)),
      Named("inline_payload", Optional(a.inlinePayload, InlineValue))])
  }

  function ScoreValue(s: ConsolidationScore): Value {
    Object([
      Named("support", Integer(s.support)),
      Named("diversity", Integer(s.diversity)),
      Named("utility", Integer(s.utility)),
      Named("salience", Integer(s.salience)),
      Named("cohesion", Integer(s.cohesion)),
      Named("novelty", Integer(s.novelty)),
      Named("uncertainty", Integer(s.uncertainty)),
      Named("total", Integer(s.total))])
  }

  function SourceDigestEntry(s: SourceDigest): Entry {
    Entry(Hex(s.source), DigestValue(s.digest))
  }

  function PayloadValue(p: MemoryPayload): Value {
    match p
    case Episode(start, end, continues) =>
      Object([
        Named("kind", Str(Ascii("episode"))),
        Named("data", Object([
          Named("event_sequence_start", Integer(start)),
          Named("event_sequence_end", Integer(end)),
          Named("continues", Optional(continues, DigestValue))]))])
    case Semantic(sources, digests, score, numerator, denominator, supersedes) =>
      Object([
        Named("kind", Str(Ascii("semantic"))),
        Named("data", Object([
          Named("source_ids", ListOf(sources, DigestValue)),
          Named("source_body_digests", Object(Map(SourceDigestEntry, digests))),
          Named("score", ScoreValue(score)),
          Named("consensus_numerator", Integer(numerator)),
          Named("consensus_denominator", Integer(denominator)),
          Named("supersedes", Optional(supersedes, DigestValue))]))])
  }

  /** The fields of an episode body that come from the buffer and the request alone. */
  function FixedEntries(b: MemoryAtomBody): seq<Entry> {
    HeadEntries(b) + StateEntries(b) + KeyEntries(b) + RetentionEntries(b)
  }

  function HeadEntries(b: MemoryAtomBody): seq<Entry> {
    [Named("contract_version", Str(b.contractVersion)),
     Named("scope", ScopeValue(b.scope)),
     Named("trigger", Str(b.trigger)),
     Named("seal_reason", SealReasonValue(b.sealReason)),
     Named("goal", Optional(b.goal, TextValue))]
  }

  function StateEntries(b: MemoryAtomBody): seq<Entry> {
    [Named("plan", ListOf(b.plan, TextValue)),
     Named("internal_state_before", TextMapValue(b.internalStateBefore)),
     Named("internal_state_after", TextMapValue(b.internalStateAfter)),
     Named("rejected_alternatives", ListOf(b.rejectedAlternatives, AlternativeValue)),
     Named("outcome", Optional(b.outcome, OutcomeValue))]
  }

  function KeyEntries(b: MemoryAtomBody): seq<Entry> {
    [Named("topic_keys", ListOf(b.topicKeys, TextValue)),
     Named("entity_ids", ListOf(b.entityIds, TextValue)),
     Named("outcome_class", Optional(b.outcomeClass, TextValue)),
     Named("goal_key", Optional(b.goalKey, TextValue))]
  }

  function RetentionEntries(b: MemoryAtomBody): seq<Entry> {
    [Named("feedback", ListOf(b.feedback, FeedbackValue)),
     Named("formation_signals", SignalsValue(b.formationSignals)),
     Named("artifacts", ListOf(b.artifacts, ArtifactValue)),
     Named("retention_permission", PermissionValue(b.retentionPermission))]
  }

  /** The fields of an episode body that depend on which events it covers. */
  function RangeEntries(b: MemoryAtomBody): seq<Entry> {
    RecordEntries(b) + ClosureEntries(b)
  }

  function RecordEntries(b: MemoryAtomBody): seq<Entry> {
    [Named("observations", ListOf(b.observations, ObservationValue)),
     Named("interpretations", ListOf(b.interpretations, InterpretationValue)),
     Named("beliefs", ListOf(b.beliefs, BeliefValue)),
     Named("decisions", ListOf(b.decisions, DecisionValue)),
     Named("actions", ListOf(b.actions, ActionValue))]
  }

  function ClosureEntries(b: MemoryAtomBody): seq<Entry> {
    [Named("interval", IntervalValue(b.interval)),
     Named("provenance", ProvenanceValue(b.provenance)),
     Named("relations", ListOf(b.relations, RelationValue)),
     Named("payload", PayloadValue(b.payload))]
  }

  function BodyValue(b: MemoryAtomBody): Value {
    Object(FixedEntries(b) + RangeEntries(b))
  }

  // ---------- every record is representable ----------

  lemma {:induction false} ListRepresentable<T>(items: seq<T>, of: T -> Value)
    requires forall i :: 0 <= i < |items| ==> Representable(of(items[i]))
    ensures Representable(ListOf(items, of))
  {
  }

  lemma {:induction false} RecordsRepresentable()
    ensures forall t: Text :: Representable(TextValue(t))
    ensures forall d: Digest :: Representable(DigestValue(d))
    ensures forall b: byte :: Representable(ByteValue(b))
  {
  }

  lemma {:induction false} PartsRepresentable()
    ensures forall o: Observation :: Representable(ObservationValue(o))
    ensures forall a: ActionRecord :: Representable(ActionValue(a))
    ensures forall d: DecisionRecord :: Representable(DecisionValue(d))
    ensures forall a: RejectedAlternative :: Representable(AlternativeValue(a))
    ensures forall f: FeedbackSignal :: Representable(FeedbackValue(f))
    ensures forall o: Outcome :: Representable(OutcomeValue(o))
    ensures forall r: Relation :: Representable(RelationValue(r))
  {
  }

  lemma {:induction false} ListsRepresentable()
    ensures forall i: Interpretation :: Representable(InterpretationValue(i))
    ensures forall b: Belief :: Representable(BeliefValue(b))
    ensures forall p: Provenance :: Representable(ProvenanceValue(p))
    ensures forall a: ArtifactRef :: Representable(ArtifactValue(a))
  {
    RecordsRepresentable();
  }

  lemma {:induction false} PayloadRepresentable(p: MemoryPayload)
    ensures Representable(PayloadValue(p))
  {
    hide Hex;
    RecordsRepresentable();
    var data := PayloadValue(p).entries[1].value;
    if p.Semantic? {
      ListRepresentable(p.sourceIds, DigestValue);
      SourceDigestsRepresentable(p.sourceBodyDigests);
      ScoreRepresentable(p.score);
      hide ListOf, ScoreValue, Map;
      assert Representable(data.entries[0].value) && Representable(data.entries[1].value);
      assert Representable(data.entries[2].value);
    }
    assert Representable(data);
  }

  lemma {:induction false} ScoreRepresentable(s: ConsolidationScore)
    ensures Representable(ScoreValue(s))
  {
  }

  lemma {:induction false} SourceDigestsRepresentable(digests: seq<SourceDigest>)
    ensures Representable(Object(Map(SourceDigestEntry, digests)))
  {
    hide Hex;
  }

  ghost predicate AllRepresentable(entries: seq<Entry>) {
    forall e :: e in entries ==> Representable(e.value)
  }

  lemma {:induction false} ConcatRepresentable(a: seq<Entry>, b: seq<Entry>)
    requires AllRepresentable(a) && AllRepresentable(b)
    ensures AllRepresentable(a + b)
  {
  }

  lemma {:induction false} TextMapRepresentable(pairs: seq<TextPair>)
    ensures Representable(TextMapValue(pairs))
  {
    forall i | 0 <= i < |pairs| ensures Representable(Map(PairEntry, pairs)[i].value) {
    }
  }

  lemma {:induction false} HeadRepresentable(b: MemoryAtomBody)
    ensures AllRepresentable(HeadEntries(b))
  {
    assert Representable(ScopeValue(b.scope));
  }

  lemma {:induction false} StateRepresentable(b: MemoryAtomBody)
    ensures AllRepresentable(StateEntries(b))
  {
    RecordsRepresentable();
    ListRepresentable(b.plan, TextValue);
    TextMapRepresentable(b.internalStateBefore);
    TextMapRepresentable(b.internalStateAfter);
    PartsRepresentable();
    ListRepresentable(b.rejectedAlternatives, AlternativeValue);
    assert Representable(Optional(b.outcome, OutcomeValue));
  }

  lemma {:induction false} KeysRepresentable(b: MemoryAtomBody)
    ensures AllRepresentable(KeyEntries(b))
  {
    RecordsRepresentable();
    ListRepresentable(b.topicKeys, TextValue);
    ListRepresentable(b.entityIds, TextValue);
  }

  lemma {:induction false} RetentionRepresentable(b: MemoryAtomBody)
    ensures AllRepresentable(RetentionEntries(b))
  {
    PartsRepresentable();
    ListRepresentable(b.feedback, FeedbackValue);
    ListsRepresentable();
    ListRepresentable(b.artifacts, ArtifactValue);
    assert Representable(SignalsValue(b.formationSignals));
  }

  lemma {:induction false} ListedRepresentable(b: MemoryAtomBody)
    ensures AllRepresentable(RecordEntries(b))
  {
    PartsRepresentable();
    ListRepresentable(b.observations, ObservationValue);
    ListRepresentable(b.decisions, DecisionValue);
    ListRepresentable(b.actions, ActionValue);
    ListsRepresentable();
    ListRepresentable(b.interpretations, InterpretationValue);
    ListRepresentable(b.beliefs, BeliefValue);
  }

  lemma {:induction false} ClosureRepresentable(b: MemoryAtomBody)
    ensures AllRepresentable(ClosureEntries(b))
  {
    assert Representable(IntervalValue(b.interval));
    PayloadRepresentable(b.payload);
    PartsRepresentable();
    ListRepresentable(b.relations, RelationValue);
    ListsRepresentable();
  }

  /** Body values hold no floats and no number outside the 64-bit ranges, so their encoding
      can fail only by growing past the length limit. */
  lemma {:induction false} BodyRepresentable(b: MemoryAtomBody)
    ensures Representable(BodyValue(b))
  {
    HeadRepresentable(b);
    StateRepresentable(b);
    KeysRepresentable(b);
    RetentionRepresentable(b);
    ListedRepresentable(b);
    ClosureRepresentable(b);
    ConcatRepresentable(HeadEntries(b), StateEntries(b));
    ConcatRepresentable(HeadEntries(b) + StateEntries(b), KeyEntries(b));
    ConcatRepresentable(HeadEntries(b) + StateEntries(b) + KeyEntries(b), RetentionEntries(b));
    ConcatRepresentable(RecordEntries(b), ClosureEntries(b));
    ConcatRepresentable(FixedEntries(b), RangeEntries(b));
    ObjectRepresentable(FixedEntries(b) + RangeEntries(b));
  }

  lemma {:induction false} ObjectRepresentable(entries: seq<Entry>)
    requires AllRepresentable(entries)
    ensures Representable(Object(entries))
  {
  }
}
